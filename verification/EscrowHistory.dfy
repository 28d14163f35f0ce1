/** What the stored lists and records of the escrow say about a whole run: the payout history adds up,
    and committed locks obey the rate limit. */
module EscrowHistory {
  import opened Prelude
  import opened EscrowSpec
  import opened EscrowRuns
  import opened EscrowRefinement
  import opened EscrowSafety
  import R = RateLimiter

  // ---------------------------------------------------------------------------------------------
  // The payout history
  // ---------------------------------------------------------------------------------------------

  function HistoryTotal(payouts: seq<PayoutRecord>): int {
    if payouts == [] then 0 else HistoryTotal(payouts[..|payouts| - 1]) + payouts[|payouts| - 1].amount
  }

  /** The history total of the ledger, zero before a program is registered. */
  function Noted(l: Ledger): int {
    if l.program.Some? then HistoryTotal(l.program.value.payouts) else 0
  }

  lemma HistoryAppend(payouts: seq<PayoutRecord>, p: PayoutRecord)
    ensures HistoryTotal(payouts + [p]) == HistoryTotal(payouts) + p.amount
  {
    assert (payouts + [p])[..|payouts|] == payouts;
  }

  lemma {:induction false} HistoryOfRecords(
    payouts: seq<PayoutRecord>, tos: seq<Address>, amounts: seq<I128>, now: U64, k: nat)
    requires k <= |tos| == |amounts|
    ensures HistoryTotal(payouts + Records(tos, amounts, now, k)) == HistoryTotal(payouts) + Sum(amounts, k)
  {
    if k == 0 {
      assert payouts + Records(tos, amounts, now, 0) == payouts;
    } else {
      HistoryOfRecords(payouts, tos, amounts, now, k - 1);
      HistoryAppend(payouts + Records(tos, amounts, now, k - 1), PayoutRecord(tos[k - 1], amounts[k - 1], now));
      assert payouts + Records(tos, amounts, now, k)
          == payouts + Records(tos, amounts, now, k - 1) + [PayoutRecord(tos[k - 1], amounts[k - 1], now)];
    }
  }

  lemma {:induction false} TriggerEachNotes(l: Ledger, indices: seq<nat>, now: U64)
    requires l.program.Some? && Releasable(l, indices) && TriggerEach(l, indices, now).Commit?
    ensures Noted(TriggerEach(l, indices, now).state) == Noted(l) + Due(l, indices)
    decreases |indices|
  {
    if indices == [] {
    } else {
      var n := |indices| - 1;
      var front := indices[..n];
      TriggerEachNotes(l, front, now);
      TriggerEachLeavesOthers(l, front, now, indices[n]);
      var m := TriggerEach(l, front, now).state;
      var s := m.schedules[indices[n]];
      HistoryAppend(m.program.value.payouts, PayoutRecord(s.recipient, s.amount, now));
    }
  }

  /** What a committed trigger call releases. */
  function Triggered(l: Ledger, c: Call): int {
    if Step(l, c).Commit? && c.op.DoTrigger? then Due(l, Selected(l, c.tx.now)) else 0
  }

  lemma BatchNotes(l: Ledger, tx: Tx, tos: seq<Address>, amounts: seq<I128>)
    requires BatchPayout(l, tx, tos, amounts).Commit?
    ensures |tos| == |amounts|
    ensures Noted(BatchPayout(l, tx, tos, amounts).state) == Noted(l) + Sum(amounts, |amounts|)
  {
    BatchCommits(l, tx, tos, amounts);
    HistoryOfRecords(l.program.value.payouts, tos, amounts, tx.now, |tos|);
  }

  lemma SingleCommits(l: Ledger, tx: Tx, to: Address, amount: I128)
    requires SinglePayout(l, tx, to, amount).Commit?
    ensures var m := SinglePayout(l, tx, to, amount).state;
      && l.program.Some? && m.program.Some?
      && m.program.value.payouts == l.program.value.payouts + [PayoutRecord(to, amount, tx.now)]
  {
  }

  lemma SingleNotes(l: Ledger, tx: Tx, to: Address, amount: I128)
    requires SinglePayout(l, tx, to, amount).Commit?
    ensures Noted(SinglePayout(l, tx, to, amount).state) == Noted(l) + amount
  {
    SingleCommits(l, tx, to, amount);
    HistoryAppend(l.program.value.payouts, PayoutRecord(to, amount, tx.now));
  }

  lemma ReleaseNotesNothing(l: Ledger, tx: Tx, id: U64, kind: ReleaseType)
    requires ReleaseOne(l, tx, id, kind).Commit?
    ensures Noted(ReleaseOne(l, tx, id, kind).state) == Noted(l)
  {
  }

  lemma OtherNotesNothing(l: Ledger, c: Call)
    requires Step(l, c).Commit?
    requires !c.op.DoSingle? && !c.op.DoBatch? && !c.op.DoTrigger? && !c.op.DoRelease?
    ensures Noted(Next(l, c)) == Noted(l)
  {
  }

  lemma StepNotes(l: Ledger, c: Call)
    ensures Noted(Next(l, c)) == Noted(l) + PaidDirectly(l, c) + Triggered(l, c)
  {
    if Step(l, c).Commit? {
      match c.op
      case DoSingle(to, amount) => SingleNotes(l, c.tx, to, amount);
      case DoBatch(tos, amounts) => BatchNotes(l, c.tx, tos, amounts);
      case DoTrigger =>
        SelectedReleasable(l, c.tx.now);
        TriggerEachNotes(l, Selected(l, c.tx.now), c.tx.now);
      case DoRelease(id, kind) => ReleaseNotesNothing(l, c.tx, id, kind);
      case _ => OtherNotesNothing(l, c);
    }
  }

  /** What the trigger calls among the first `k` transactions released. */
  function TriggeredTotal(start: Ledger, calls: seq<Call>, k: nat): int
    requires k <= |calls|
  {
    if k == 0 then 0
    else TriggeredTotal(start, calls, k - 1) + Triggered(At(start, calls, k - 1), calls[k - 1])
  }

  /** Main result: the payout history adds up to the direct payouts plus what trigger calls released;
      manual and automatic releases are what is missing from it. */
  lemma {:induction false} HistoryAddsUp(start: Ledger, calls: seq<Call>, k: nat)
    requires Fresh(start) && k <= |calls|
    ensures Noted(At(start, calls, k)) == DirectPayouts(start, calls, k) + TriggeredTotal(start, calls, k)
  {
    if k == 0 {
    } else {
      HistoryAddsUp(start, calls, k - 1);
      StepNotes(At(start, calls, k - 1), calls[k - 1]);
    }
  }

  // ---------------------------------------------------------------------------------------------
  // Locks and the rate limit
  // ---------------------------------------------------------------------------------------------

  /** The call is a lock by `who` that commits. */
  predicate Locks(l: Ledger, c: Call, who: Address) {
    c.op.DoLock? && c.op.from == who && Step(l, c).Commit?
  }

  /** The times of the committed locks of `who` among the first `k` transactions. */
  function LockTimes(start: Ledger, calls: seq<Call>, who: Address, k: nat): seq<U64>
    requires k <= |calls|
  {
    if k == 0 then []
    else
      var earlier := LockTimes(start, calls, who, k - 1);
      if Locks(At(start, calls, k - 1), calls[k - 1], who) then earlier + [calls[k - 1].tx.now] else earlier
  }

  /** Ledger time never goes back and is below the last timestamp. */
  predicate Timely(calls: seq<Call>) {
    && (forall i, j :: 0 <= i < j < |calls| ==> calls[i].tx.now <= calls[j].tx.now)
    && forall i :: 0 <= i < |calls| ==> calls[i].tx.now < U64_MAX
  }

  /** Whenever `who` locks, this configuration is in force and `who` is not exempt. */
  predicate Watched(start: Ledger, calls: seq<Call>, k: nat, who: Address, cfg: R.Config)
    requires k <= |calls|
  {
    k == 0 ||
    (&& Watched(start, calls, k - 1, who, cfg)
     && WatchedAt(At(start, calls, k - 1), calls[k - 1], who, cfg))
  }

  predicate WatchedAt(l: Ledger, c: Call, who: Address, cfg: R.Config) {
    Locks(l, c, who) ==> l.settings.rate == cfg && who !in l.rateExempt
  }

  lemma {:induction false} TriggerEachKeepsLimits(l: Ledger, indices: seq<nat>, now: U64)
    requires l.program.Some? && InRange(l, indices) && TriggerEach(l, indices, now).Commit?
    ensures TriggerEach(l, indices, now).state.limits == l.limits
    decreases |indices|
  {
    if indices == [] {
    } else {
      TriggerEachKeepsLimits(l, indices[..|indices| - 1], now);
    }
  }

  lemma ReleaseKeepsLimits(l: Ledger, tx: Tx, id: U64, kind: ReleaseType)
    requires ReleaseOne(l, tx, id, kind).Commit?
    ensures ReleaseOne(l, tx, id, kind).state.limits == l.limits
  {
  }

  lemma OtherKeepsLimits(l: Ledger, c: Call)
    requires Step(l, c).Commit? && !c.op.DoLock? && !c.op.DoBatch? && !c.op.DoTrigger? && !c.op.DoRelease?
    ensures Next(l, c).limits == l.limits
  {
  }

  lemma OnlyLocksCount(l: Ledger, c: Call)
    requires !(c.op.DoLock? && Step(l, c).Commit?)
    ensures Next(l, c).limits == l.limits
  {
    if Step(l, c).Commit? {
      match c.op
      case DoBatch(tos, amounts) => BatchCommits(l, c.tx, tos, amounts);
      case DoTrigger => TriggerEachKeepsLimits(l, Selected(l, c.tx.now), c.tx.now);
      case DoRelease(id, kind) => ReleaseKeepsLimits(l, c.tx, id, kind);
      case _ => OtherKeepsLimits(l, c);
    }
  }

  /** What a lock does to the records: an admission of its payer, and nothing to anybody else. */
  lemma LockIsAdmitted(l: Ledger, tx: Tx, from: Address, amount: I128)
    requires Lock(l, tx, from, amount).Commit?
    ensures var m := Lock(l, tx, from, amount).state;
      var r := R.Admit(R.Record(l.limits, from, tx.now), tx.now, l.settings.rate);
      && (from in l.rateExempt ==> m.limits == l.limits)
      && (from !in l.rateExempt ==> r.Commit? && m.limits == l.limits[from := r.state])
  {
  }

  lemma StepKeepsDiscipline(l: Ledger, c: Call, who: Address, acc: seq<U64>, cfg: R.Config)
    requires R.Disciplined(l.limits, who, acc, cfg) && cfg.window > 0 && c.tx.now < U64_MAX
    requires NotLater(acc, c.tx.now) && WatchedAt(l, c, who, cfg)
    ensures R.Disciplined(Next(l, c).limits, who, if Locks(l, c, who) then acc + [c.tx.now] else acc, cfg)
  {
    if c.op.DoLock? && Step(l, c).Commit? {
      LockIsAdmitted(l, c.tx, c.op.from, c.op.amount);
      if c.op.from == who {
        R.AcceptKeepsDiscipline(l.limits, who, acc, c.tx.now, cfg);
      } else {
        R.OthersKeepDiscipline(l.limits, Next(l, c).limits, who, acc, cfg);
      }
    } else {
      OnlyLocksCount(l, c);
    }
  }

  lemma LockTimesOneMore(start: Ledger, calls: seq<Call>, who: Address, k: nat, l: Ledger, acc: seq<U64>)
    requires 0 < k <= |calls| && l == At(start, calls, k - 1) && acc == LockTimes(start, calls, who, k - 1)
    ensures At(start, calls, k) == Next(l, calls[k - 1])
    ensures LockTimes(start, calls, who, k) == if Locks(l, calls[k - 1], who) then acc + [calls[k - 1].tx.now] else acc
  {
  }

  predicate NotLater(times: seq<U64>, now: U64) {
    times != [] ==> times[|times| - 1] <= now
  }

  /** Lock times are never in the future. */
  lemma {:induction false} LockTimesArePast(start: Ledger, calls: seq<Call>, who: Address, j: nat, k: nat)
    requires j <= k < |calls| && Timely(calls)
    ensures NotLater(LockTimes(start, calls, who, j), calls[k].tx.now)
    decreases j
  {
    if j == 0 {
    } else {
      LockTimesArePast(start, calls, who, j - 1, k);
      LockTimesOneMore(start, calls, who, j, At(start, calls, j - 1), LockTimes(start, calls, who, j - 1));
    }
  }

  lemma {:induction false} LocksAreDisciplined(start: Ledger, calls: seq<Call>, who: Address, k: nat, cfg: R.Config)
    requires Fresh(start) && k <= |calls| && Timely(calls) && cfg.window > 0
    requires Watched(start, calls, k, who, cfg)
    ensures R.Disciplined(At(start, calls, k).limits, who, LockTimes(start, calls, who, k), cfg)
  {
    if k == 0 {
    } else {
      var l, acc := At(start, calls, k - 1), LockTimes(start, calls, who, k - 1);
      LocksAreDisciplined(start, calls, who, k - 1, cfg);
      LockTimesArePast(start, calls, who, k - 1, k - 1);
      StepKeepsDiscipline(l, calls[k - 1], who, acc, cfg);
      LockTimesOneMore(start, calls, who, k, l, acc);
    }
  }

  /** Main result: over any run of the escrow, with aborted locks rolled back together with what the
      limiter had counted, no interval of window length holds more than 2M-1 committed locks of one
      address, and locks at positive times are a cooldown apart. */
  lemma LocksObeyTheLimit(start: Ledger, calls: seq<Call>, who: Address, k: nat, cfg: R.Config, a: int)
    requires Fresh(start) && k <= |calls| && Timely(calls) && cfg.window > 0
    requires Watched(start, calls, k, who, cfg)
    ensures var acc := LockTimes(start, calls, who, k);
      && R.CountIn(acc, a, a + cfg.window) <= R.Quota(cfg)
      && forall i, j :: 0 <= i < j < |acc| && acc[i] > 0 ==> acc[i] + cfg.cooldown <= acc[j]
  {
    LocksAreDisciplined(start, calls, who, k, cfg);
    var states, acc := At(start, calls, k).limits, LockTimes(start, calls, who, k);
    R.DisciplineBoundsCount(states, who, acc, cfg, a);
    forall i, j | 0 <= i < j < |acc| && acc[i] > 0
      ensures acc[i] + cfg.cooldown <= acc[j]
    {
      R.DisciplineSpacesOut(states, who, acc, cfg, i, j);
    }
  }
}
