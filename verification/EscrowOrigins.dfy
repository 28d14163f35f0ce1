/** Where the stored entries come from: every schedule from one create call, whose release time is then
    respected, and every payout record from one payment. */
module EscrowOrigins {
  import opened Prelude
  import opened EscrowSpec
  import opened EscrowRuns
  import opened EscrowRefinement
  import opened EscrowDrain
  import opened EscrowSafety
  import opened EscrowAccess

  // ---------------------------------------------------------------------------------------------
  // Schedules
  // ---------------------------------------------------------------------------------------------

  /** Main result: in every reachable ledger a create call goes through exactly when the program is
      registered, its key signed, the amount is positive, an enforced whitelist holds the recipient
      and an id is left. It appends the schedule it describes and changes nothing else. */
  lemma CreateExact(start: Ledger, calls: seq<Call>, k: nat, tx: Tx, amount: I128, releaseTime: U64, recipient: Address)
    requires Fresh(start) && k <= |calls|
    ensures var l := At(start, calls, k); var n := |l.schedules|;
      var r := CreateSchedule(l, tx, amount, releaseTime, recipient);
      && (r.Commit? <==>
            && l.program.Some? && l.program.value.payoutKey in tx.auth && amount > 0
            && (l.settings.whitelistEnforced ==> recipient in l.settings.whitelist)
            && n + 1 < U64_MAX)
      && (r.Commit? ==>
            && r.state.schedules == l.schedules + [Schedule(n + 1, recipient, amount, releaseTime, false, None, None)]
            && r.state == l.(schedules := r.state.schedules, nextId := n + 2))
  {
    RunKeepsInv(start, calls, k);
    CreateOfNumbered(At(start, calls, k), tx, amount, releaseTime, recipient);
  }

  lemma CreateOfNumbered(l: Ledger, tx: Tx, amount: I128, releaseTime: U64, recipient: Address)
    requires Numbered(l)
    ensures var n, r := |l.schedules|, CreateSchedule(l, tx, amount, releaseTime, recipient);
      && (r.Commit? <==>
            && l.program.Some? && l.program.value.payoutKey in tx.auth && amount > 0
            && (l.settings.whitelistEnforced ==> recipient in l.settings.whitelist)
            && n + 1 < U64_MAX)
      && (r.Commit? ==>
            && r.state.schedules == l.schedules + [Schedule(n + 1, recipient, amount, releaseTime, false, None, None)]
            && r.state == l.(schedules := r.state.schedules, nextId := n + 2))
  {
  }

  /** The call appends schedule number `i`, counted from zero, as it stands in `s`. */
  predicate Creates(l: Ledger, c: Call, i: nat, s: Schedule) {
    && c.op.DoCreate? && Step(l, c).Commit? && |l.schedules| == i
    && s.id == i + 1 && s.recipient == c.op.recipient && s.amount == c.op.amount && s.releaseTime == c.op.releaseTime
  }

  lemma ReleaseAddsNone(l: Ledger, tx: Tx, id: U64, kind: ReleaseType)
    requires ReleaseOne(l, tx, id, kind).Commit?
    ensures |ReleaseOne(l, tx, id, kind).state.schedules| == |l.schedules|
  {
  }

  lemma OthersAddNone(l: Ledger, c: Call)
    requires Numbered(l) && Step(l, c).Commit?
    requires !c.op.DoCreate? && !c.op.DoTrigger? && !c.op.DoBatch? && !c.op.DoRelease?
    ensures |Next(l, c).schedules| <= |l.schedules|
  {
  }

  lemma OnlyCreatesAdd(l: Ledger, c: Call, i: nat)
    requires Inv(l) && |l.schedules| <= i < |Next(l, c).schedules|
    ensures Creates(l, c, i, Next(l, c).schedules[i])
  {
    if Step(l, c).Commit? {
      match c.op
      case DoCreate(_, _, _) =>
      case DoTrigger => TriggerEachKeepsIds(l, Selected(l, c.tx.now), c.tx.now);
      case DoBatch(tos, amounts) => BatchCommits(l, c.tx, tos, amounts);
      case DoRelease(id, kind) => ReleaseAddsNone(l, c.tx, id, kind);
      case _ => OthersAddNone(l, c);
    }
  }

  /** Main result: every schedule carries the recipient, amount and release time of the one committed
      create call that appended it. */
  lemma {:induction false} ScheduleOrigin(start: Ledger, calls: seq<Call>, k: nat, i: nat) returns (j: nat)
    requires Fresh(start) && k <= |calls| && i < |At(start, calls, k).schedules|
    ensures j < k && Creates(At(start, calls, j), calls[j], i, At(start, calls, k).schedules[i])
  {
    var before := At(start, calls, k - 1);
    if i < |before.schedules| {
      j := ScheduleOrigin(start, calls, k - 1, i);
      SchedulesAreFinal(start, calls, k - 1, k);
    } else {
      RunKeepsInv(start, calls, k - 1);
      OnlyCreatesAdd(before, calls[k - 1], i);
      j := k - 1;
    }
  }

  lemma TriggerIsOnTime(l: Ledger, tx: Tx, i: nat)
    requires Inv(l) && Trigger(l, tx).Commit? && i < |l.schedules|
    requires |Trigger(l, tx).state.schedules| == |l.schedules| && Trigger(l, tx).state.schedules[i] != l.schedules[i]
    ensures tx.now >= l.schedules[i].releaseTime
  {
    SelectedReleasable(l, tx.now);
    TriggerEachFlags(l, Selected(l, tx.now), tx.now, i);
  }

  lemma AutomaticIsOnTime(l: Ledger, tx: Tx, id: U64, i: nat)
    requires Inv(l) && ReleaseOne(l, tx, id, Automatic).Commit? && i < |l.schedules|
    requires |ReleaseOne(l, tx, id, Automatic).state.schedules| == |l.schedules|
    requires ReleaseOne(l, tx, id, Automatic).state.schedules[i] != l.schedules[i]
    ensures tx.now >= l.schedules[i].releaseTime
  {
    ReleaseOfNumbered(l, tx, id, Automatic);
  }

  /** Main result: a trigger call or an automatic release never releases a schedule before the release
      time its create call asked for. */
  lemma ReleasedOnTime(start: Ledger, calls: seq<Call>, k: nat, i: nat) returns (j: nat)
    requires Fresh(start) && k < |calls| && i < |At(start, calls, k).schedules|
    requires i < |At(start, calls, k + 1).schedules|
    requires !At(start, calls, k).schedules[i].released && At(start, calls, k + 1).schedules[i].released
    requires calls[k].op.DoTrigger? || (calls[k].op.DoRelease? && calls[k].op.kind == Automatic)
    ensures j < k && Creates(At(start, calls, j), calls[j], i, At(start, calls, k).schedules[i])
    ensures calls[k].tx.now >= calls[j].op.releaseTime
  {
    j := ScheduleOrigin(start, calls, k, i);
    RunKeepsInv(start, calls, k);
    var l, c := At(start, calls, k), calls[k];
    if c.op.DoTrigger? {
      TriggerEachKeepsIds(l, Selected(l, c.tx.now), c.tx.now);
      TriggerIsOnTime(l, c.tx, i);
    } else {
      ReleaseAddsNone(l, c.tx, c.op.id, Automatic);
      AutomaticIsOnTime(l, c.tx, c.op.id, i);
    }
  }

  // ---------------------------------------------------------------------------------------------
  // Payout records
  // ---------------------------------------------------------------------------------------------

  /** The payments a committed call makes that belong into the payout history, in order. */
  function Payments(l: Ledger, c: Call): seq<PayoutRecord> {
    if Step(l, c).Abort? then []
    else
      match c.op
      case DoSingle(to, amount) => [PayoutRecord(to, amount, c.tx.now)]
      case DoBatch(tos, amounts) =>
        seq(|tos|, i requires 0 <= i < |tos| => PayoutRecord(tos[i], if i < |amounts| then amounts[i] else 0, c.tx.now))
      case DoTrigger => RowPayments(l, Selected(l, c.tx.now), c.tx.now)
      case _ => []
  }

  /** One payment for each schedule of a row: to its recipient, of its amount, at this time. */
  function RowPayments(l: Ledger, row: seq<nat>, now: U64): seq<PayoutRecord>
    requires InRange(l, row)
  {
    seq(|row|, i requires 0 <= i < |row| =>
      PayoutRecord(l.schedules[row[i]].recipient, l.schedules[row[i]].amount, now))
  }

  lemma {:induction false} RowRecordsPayments(l: Ledger, row: seq<nat>, now: U64)
    requires l.program.Some? && Releasable(l, row) && TriggerEach(l, row, now).Commit?
    ensures TriggerEach(l, row, now).state.program.value.payouts == l.program.value.payouts + RowPayments(l, row, now)
    decreases |row|
  {
    if row == [] {
    } else {
      var n := |row| - 1;
      RowRecordsPayments(l, row[..n], now);
      TriggerEachLeavesOthers(l, row[..n], now, row[n]);
      assert RowPayments(l, row, now) == RowPayments(l, row[..n], now) + RowPayments(l, [row[n]], now);
    }
  }

  lemma BatchRecordsPayments(l: Ledger, c: Call)
    requires c.op.DoBatch? && Step(l, c).Commit? && l.program.Some?
    ensures Next(l, c).program.Some? && Next(l, c).program.value.payouts == l.program.value.payouts + Payments(l, c)
  {
    var n := |c.op.tos|;
    assert Records(c.op.tos, c.op.amounts, c.tx.now, n) == Payments(l, c);
  }

  lemma ReleaseRecordsNothing(l: Ledger, tx: Tx, id: U64, kind: ReleaseType)
    requires l.program.Some? && ReleaseOne(l, tx, id, kind).Commit?
    ensures ReleaseOne(l, tx, id, kind).state.program.Some?
    ensures ReleaseOne(l, tx, id, kind).state.program.value.payouts == l.program.value.payouts
  {
  }

  lemma OthersRecordNothing(l: Ledger, c: Call)
    requires l.program.Some? && Step(l, c).Commit?
    requires !c.op.DoSingle? && !c.op.DoBatch? && !c.op.DoTrigger? && !c.op.DoRelease?
    ensures Next(l, c).program.Some? && Next(l, c).program.value.payouts == l.program.value.payouts
  {
  }

  lemma StepRecordsPayments(l: Ledger, c: Call)
    requires l.program.Some?
    ensures Next(l, c).program.Some? && Next(l, c).program.value.payouts == l.program.value.payouts + Payments(l, c)
  {
    if Step(l, c).Commit? {
      match c.op
      case DoSingle(_, _) =>
      case DoBatch(_, _) => BatchRecordsPayments(l, c);
      case DoTrigger =>
        SelectedReleasable(l, c.tx.now);
        RowRecordsPayments(l, Selected(l, c.tx.now), c.tx.now);
      case DoRelease(id, kind) => ReleaseRecordsNothing(l, c.tx, id, kind);
      case _ => OthersRecordNothing(l, c);
    }
  }

  lemma FirstProgramIsEmpty(l: Ledger, c: Call)
    requires l.program.None? && Next(l, c).program.Some?
    ensures Next(l, c).program.value.payouts == []
  {
  }

  /** Main result: every entry of the payout history is the q-th payment of one earlier call: its
      recipient, its amount, its time; and calls add exactly their payments. */
  lemma {:induction false} RecordOrigin(start: Ledger, calls: seq<Call>, k: nat, p: nat) returns (j: nat, q: nat)
    requires Fresh(start) && k <= |calls| && At(start, calls, k).program.Some?
    requires p < |At(start, calls, k).program.value.payouts|
    ensures j < k && q < |Payments(At(start, calls, j), calls[j])|
    ensures At(start, calls, k).program.value.payouts[p] == Payments(At(start, calls, j), calls[j])[q]
    ensures At(start, calls, k).program.value.payouts[p].timestamp == calls[j].tx.now
  {
    var before, c := At(start, calls, k - 1), calls[k - 1];
    if before.program.None? {
      FirstProgramIsEmpty(before, c);
      assert false;
    } else {
      StepRecordsPayments(before, c);
      if p < |before.program.value.payouts| {
        j, q := RecordOrigin(start, calls, k - 1, p);
      } else {
        j, q := k - 1, p - |before.program.value.payouts|;
      }
    }
  }
}
