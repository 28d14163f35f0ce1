/** Conservation of funds, single payment of schedules, and the breaker, over every run of the escrow. */
module EscrowSafety {
  import opened Prelude
  import opened EscrowSpec
  import opened EscrowLoops
  import opened EscrowRuns
  import B = CircuitBreaker

  /** The direct payouts of the first `k` transactions. */
  function DirectPayouts(start: Ledger, calls: seq<Call>, k: nat): int
    requires k <= |calls|
  {
    if k == 0 then 0
    else DirectPayouts(start, calls, k - 1) + PaidDirectly(At(start, calls, k - 1), calls[k - 1])
  }

  lemma {:induction false} RunAccounts(start: Ledger, calls: seq<Call>, k: nat)
    requires Fresh(start) && k <= |calls|
    ensures var l := At(start, calls, k);
      && Inv(l)
      && (if l.program.Some? then SpentDirectly(l) == DirectPayouts(start, calls, k)
          else DirectPayouts(start, calls, k) == 0)
  {
    if k == 0 {
    } else {
      RunAccounts(start, calls, k - 1);
      StepKeepsInv(At(start, calls, k - 1), calls[k - 1]);
    }
  }

  /** Main result: whatever is called and whoever sends tokens around, what has left the remaining
      balance is exactly the direct payouts plus the amounts of the schedules flagged released, and
      the contract's tokens always cover the remaining balance. */
  lemma Conservation(start: Ledger, calls: seq<Call>, k: nat)
    requires Fresh(start) && k <= |calls| && At(start, calls, k).program.Some?
    ensures var l := At(start, calls, k);
      && Numbered(l)
      && l.program.value.totalFunds - l.program.value.remaining
         == DirectPayouts(start, calls, k) + ReleasedTotal(l.schedules)
      && Balance(l.balances, l.self) >= l.program.value.remaining
      && l.program.value.remaining <= l.program.value.totalFunds
  {
    RunAccounts(start, calls, k);
  }

  // ---------------------------------------------------------------------------------------------
  // When nothing enters or returns by the side, the books are exact
  // ---------------------------------------------------------------------------------------------

  /** The call neither sends tokens to the contract from outside nor pays the contract itself. */
  predicate NotToSelf(self: Address, c: Call) {
    match c.op
    case DoLock(from, _) => from != self
    case DoSingle(to, _) => to != self
    case DoBatch(tos, _) => self !in tos
    case DoCreate(_, _, recipient) => recipient != self
    case DoOutsideTransfer(_, to, _) => to != self
    case _ => true
  }

  predicate Exact(l: Ledger) {
    && Balance(l.balances, l.self) == (if l.program.Some? then l.program.value.remaining else 0)
    && forall i :: 0 <= i < |l.schedules| ==> l.schedules[i].recipient != l.self
  }

  lemma ReleaseAtKeepsExact(l: Ledger, i: nat, now: U64, releaser: Address, kind: ReleaseType)
    requires l.program.Some? && i < |l.schedules| && Exact(l) && ReleaseAt(l, i, now, releaser, kind).Commit?
    ensures Exact(ReleaseAt(l, i, now, releaser, kind).state)
        && ReleaseAt(l, i, now, releaser, kind).state.self == l.self
  {
    TransferCosts(l.balances, l.self, l.schedules[i].recipient, l.schedules[i].amount);
  }

  lemma {:induction false} TriggerEachKeepsExact(l: Ledger, indices: seq<nat>, now: U64)
    requires l.program.Some? && InRange(l, indices) && Exact(l) && TriggerEach(l, indices, now).Commit?
    ensures Exact(TriggerEach(l, indices, now).state) && TriggerEach(l, indices, now).state.self == l.self
    decreases |indices|
  {
    if indices == [] {
    } else {
      var n := |indices| - 1;
      TriggerEachKeepsExact(l, indices[..n], now);
      ReleaseAtKeepsExact(TriggerEach(l, indices[..n], now).state, indices[n], now, l.self, Automatic);
    }
  }

  lemma BatchKeepsExact(l: Ledger, tx: Tx, tos: seq<Address>, amounts: seq<I128>)
    requires Exact(l) && l.self !in tos && BatchPayout(l, tx, tos, amounts).Commit?
    ensures Exact(BatchPayout(l, tx, tos, amounts).state)
  {
    BatchCommits(l, tx, tos, amounts);
    CheckedTotalIsSum(amounts, |amounts|);
    TransferAllCosts(l.balances, l.self, tos, amounts, |amounts|);
  }

  lemma ReleaseKeepsExact(l: Ledger, tx: Tx, id: U64, kind: ReleaseType)
    requires Exact(l) && ReleaseOne(l, tx, id, kind).Commit?
    ensures Exact(ReleaseOne(l, tx, id, kind).state) && ReleaseOne(l, tx, id, kind).state.self == l.self
  {
    var releaser := if kind == Manual then l.program.value.payoutKey else l.self;
    ReleaseAtKeepsExact(l, IndexOf(l.schedules, id), tx.now, releaser, kind);
  }

  lemma SimpleKeepsExact(l: Ledger, c: Call)
    requires Numbered(l) && Exact(l) && NotToSelf(l.self, c) && Step(l, c).Commit?
    requires !c.op.DoBatch? && !c.op.DoTrigger? && !c.op.DoRelease?
    ensures Exact(Next(l, c)) && Next(l, c).self == l.self
  {
  }

  lemma StepKeepsExact(l: Ledger, c: Call)
    requires Inv(l) && Exact(l) && NotToSelf(l.self, c)
    ensures Exact(Next(l, c)) && Next(l, c).self == l.self
  {
    if Step(l, c).Commit? {
      match c.op
      case DoBatch(tos, amounts) =>
        BatchCommits(l, c.tx, tos, amounts);
        BatchKeepsExact(l, c.tx, tos, amounts);
      case DoTrigger => TriggerEachKeepsExact(l, Selected(l, c.tx.now), c.tx.now);
      case DoRelease(id, kind) => ReleaseKeepsExact(l, c.tx, id, kind);
      case _ => SimpleKeepsExact(l, c);
    }
  }

  predicate NoneToSelf(self: Address, calls: seq<Call>, k: nat)
    requires k <= |calls|
  {
    forall i :: 0 <= i < k ==> NotToSelf(self, calls[i])
  }

  /** Main result: if the contract starts without tokens and no call sends it any except by locking,
      its tokens equal the remaining balance, which is therefore never negative. */
  lemma {:induction false} BooksAreExact(start: Ledger, calls: seq<Call>, k: nat)
    requires Fresh(start) && k <= |calls| && Balance(start.balances, start.self) == 0
    requires NoneToSelf(start.self, calls, k)
    ensures var l := At(start, calls, k);
      && Exact(l) && l.self == start.self
      && (l.program.Some? ==> Balance(l.balances, l.self) == l.program.value.remaining >= 0)
  {
    if k == 0 {
    } else {
      var before := At(start, calls, k - 1);
      BooksAreExact(start, calls, k - 1);
      assert Inv(before) by {
        RunKeepsInv(start, calls, k - 1);
      }
      assert NotToSelf(start.self, calls[k - 1]);
      StepKeepsExact(before, calls[k - 1]);
    }
  }

  /** Main result: the balance check at the end of a lock never fires, donations or not, unless the
      contract itself is named as the payer; then it fires exactly when there is no surplus. */
  lemma LockGuardOnlyStopsSelf(start: Ledger, calls: seq<Call>, k: nat, tx: Tx, from: Address, amount: I128)
    requires Fresh(start) && k <= |calls|
    ensures var l := At(start, calls, k); var r := Lock(l, tx, from, amount);
      && (r == Abort(BalanceInvariant) ==> from == l.self)
      && (from == l.self && (r == Abort(BalanceInvariant) || r.Commit?) ==>
            l.program.Some?
            && (r.Commit? <==> Balance(l.balances, l.self) >= l.program.value.remaining + amount))
  {
    RunKeepsInv(start, calls, k);
    var l := At(start, calls, k);
    if Transfer(l.balances, from, l.self, amount).Some? {
      TransferCosts(l.balances, from, l.self, amount);
    }
  }

  // ---------------------------------------------------------------------------------------------
  // No schedule is paid twice
  // ---------------------------------------------------------------------------------------------

  /** `m` has at least the schedules and history of `l`, none rewritten except to be released. */
  predicate Extends(l: Ledger, m: Ledger) {
    && |l.schedules| <= |m.schedules|
    && l.releases <= m.releases
    && forall i :: 0 <= i < |l.schedules| ==>
         var s, t := l.schedules[i], m.schedules[i];
         && (s.released ==> t == s)
         && t.id == s.id && t.recipient == s.recipient && t.amount == s.amount && t.releaseTime == s.releaseTime
  }

  lemma {:induction false} TriggerEachExtendsLedger(l: Ledger, indices: seq<nat>, now: U64)
    requires l.program.Some? && Releasable(l, indices) && TriggerEach(l, indices, now).Commit?
    ensures Extends(l, TriggerEach(l, indices, now).state)
    decreases |indices|
  {
    if indices == [] {
    } else {
      var n := |indices| - 1;
      TriggerEachExtendsLedger(l, indices[..n], now);
      TriggerEachLeavesOthers(l, indices[..n], now, indices[n]);
    }
  }

  lemma ReleaseExtends(l: Ledger, tx: Tx, id: U64, kind: ReleaseType)
    requires ReleaseOne(l, tx, id, kind).Commit?
    ensures Extends(l, ReleaseOne(l, tx, id, kind).state)
  {
  }

  lemma BatchExtends(l: Ledger, tx: Tx, tos: seq<Address>, amounts: seq<I128>)
    requires BatchPayout(l, tx, tos, amounts).Commit?
    ensures Extends(l, BatchPayout(l, tx, tos, amounts).state)
  {
    BatchCommits(l, tx, tos, amounts);
  }

  lemma OtherExtends(l: Ledger, c: Call)
    requires Numbered(l) && Step(l, c).Commit? && !c.op.DoTrigger? && !c.op.DoRelease? && !c.op.DoBatch?
    ensures Extends(l, Next(l, c))
  {
  }

  lemma StepExtends(l: Ledger, c: Call)
    requires Inv(l)
    ensures Extends(l, Next(l, c))
  {
    if Step(l, c).Commit? {
      match c.op
      case DoTrigger =>
        SelectedReleasable(l, c.tx.now);
        TriggerEachExtendsLedger(l, Selected(l, c.tx.now), c.tx.now);
      case DoRelease(id, kind) => ReleaseExtends(l, c.tx, id, kind);
      case DoBatch(tos, amounts) => BatchExtends(l, c.tx, tos, amounts);
      case _ => OtherExtends(l, c);
    }
  }

  lemma ExtendsTransitive(l: Ledger, m: Ledger, n: Ledger)
    requires Extends(l, m) && Extends(m, n)
    ensures Extends(l, n)
  {
  }

  lemma ExtendsReflexive(l: Ledger)
    ensures Extends(l, l)
  {
  }

  /** Main result: later states only extend earlier ones; a released schedule is never touched again. */
  lemma {:induction false} SchedulesAreFinal(start: Ledger, calls: seq<Call>, j: nat, k: nat)
    requires Fresh(start) && j <= k <= |calls|
    ensures Extends(At(start, calls, j), At(start, calls, k))
    decreases k - j
  {
    if j < k {
      var before := At(start, calls, k - 1);
      SchedulesAreFinal(start, calls, j, k - 1);
      assert Extends(before, Next(before, calls[k - 1])) by {
        RunKeepsInv(start, calls, k - 1);
        StepExtends(before, calls[k - 1]);
      }
      ExtendsTransitive(At(start, calls, j), before, Next(before, calls[k - 1]));
    } else {
      ExtendsReflexive(At(start, calls, j));
    }
  }

  /** The history speaks of this schedule once, truthfully, if it is released, and not otherwise. */
  ghost predicate PaidAtMostOnce(s: Schedule, releases: seq<Release>) {
    && (s.released <==> HasEntry(releases, s.id))
    && (forall j :: 0 <= j < |releases| && releases[j].scheduleId == s.id ==>
          releases[j].recipient == s.recipient && releases[j].amount == s.amount)
    && (forall j, m :: 0 <= j < m < |releases| && releases[j].scheduleId == s.id ==> releases[m].scheduleId != s.id)
  }

  lemma BooksListOnce(schedules: seq<Schedule>, releases: seq<Release>, i: nat)
    requires Booked(schedules, releases) && i < |schedules| && schedules[i].id == i + 1
    ensures PaidAtMostOnce(schedules[i], releases)
  {
    forall j | 0 <= j < |releases| && releases[j].scheduleId == i + 1
      ensures Matches(releases[j], schedules[i])
    {
      assert Matches(releases[j], schedules[releases[j].scheduleId - 1]);
    }
  }

  /** Main result: ids are dense, and the release history lists every released schedule exactly once
      with its own recipient and amount, so none of the three routes can pay a schedule twice. */
  lemma EachSchedulePaidOnce(start: Ledger, calls: seq<Call>, k: nat, i: nat)
    requires Fresh(start) && k <= |calls| && i < |At(start, calls, k).schedules|
    ensures var l := At(start, calls, k);
      && l.schedules[i].id == i + 1 && l.nextId == |l.schedules| + 1
      && PaidAtMostOnce(l.schedules[i], l.releases)
  {
    RunKeepsInv(start, calls, k);
    BooksListOnce(At(start, calls, k).schedules, At(start, calls, k).releases, i);
  }

  // ---------------------------------------------------------------------------------------------
  // The breaker inside the escrow
  // ---------------------------------------------------------------------------------------------

  lemma {:induction false} TriggerEachKeepsBreaker(l: Ledger, indices: seq<nat>, now: U64)
    requires l.program.Some? && InRange(l, indices) && TriggerEach(l, indices, now).Commit?
    ensures var m := TriggerEach(l, indices, now).state; SameElsewhere(l, m)
    decreases |indices|
  {
    if indices == [] {
    } else {
      var n := |indices| - 1;
      TriggerEachKeepsBreaker(l, indices[..n], now);
      TriggerAtFrame(TriggerEach(l, indices[..n], now).state, indices[n], now);
    }
  }

  lemma ReleaseKeepsClosed(l: Ledger, tx: Tx, id: U64, kind: ReleaseType)
    requires l.breaker.state == B.Closed && ReleaseOne(l, tx, id, kind).Commit?
    ensures ReleaseOne(l, tx, id, kind).state.breaker.state == B.Closed
  {
  }

  /** The breaker's administrator forces the circuit open. */
  predicate Forces(l: Ledger, c: Call) {
    c.op.DoForceOpenBreaker? && c.op.caller in c.tx.auth && l.breaker.admin == Some(c.op.caller)
  }

  lemma StepKeepsClosed(l: Ledger, c: Call)
    requires l.breaker.state == B.Closed && !Forces(l, c)
    ensures Next(l, c).breaker.state == B.Closed
  {
    if Step(l, c).Commit? {
      match c.op
      case DoTrigger => TriggerEachKeepsBreaker(l, Selected(l, c.tx.now), c.tx.now);
      case DoRelease(id, kind) => ReleaseKeepsClosed(l, c.tx, id, kind);
      case DoBatch(tos, amounts) => BatchCommits(l, c.tx, tos, amounts);
      case _ =>
    }
  }

  predicate NeverForced(calls: seq<Call>, k: nat)
    requires k <= |calls|
  {
    forall i :: 0 <= i < k ==> !calls[i].op.DoForceOpenBreaker?
  }

  /** Main result: no failure is ever on record between transactions, and the circuit opens only when
      its administrator forces it, however many payouts have failed. */
  lemma {:induction false} FailedPayoutsNeverTrip(start: Ledger, calls: seq<Call>, k: nat)
    requires Fresh(start) && k <= |calls|
    ensures Calm(At(start, calls, k).breaker)
    ensures NeverForced(calls, k) ==> At(start, calls, k).breaker.state == B.Closed
  {
    RunKeepsInv(start, calls, k);
    if k == 0 || !NeverForced(calls, k) {
    } else {
      var before := At(start, calls, k - 1);
      assert before.breaker.state == B.Closed by {
        FailedPayoutsNeverTrip(start, calls, k - 1);
      }
      StepKeepsClosed(before, calls[k - 1]);
    }
  }

  /** Main result: behind every circuit that is not closed there is a call by which the administrator
      of the breaker at that time, with its signature, forced it open. */
  lemma {:induction false} OnlyTheAdminOpensTheCircuit(start: Ledger, calls: seq<Call>, k: nat) returns (i: nat)
    requires Fresh(start) && k <= |calls| && At(start, calls, k).breaker.state != B.Closed
    ensures i < k && Forces(At(start, calls, i), calls[i])
  {
    var before := At(start, calls, k - 1);
    if before.breaker.state != B.Closed {
      i := OnlyTheAdminOpensTheCircuit(start, calls, k - 1);
    } else {
      i := k - 1;
      if !Forces(before, calls[i]) {
        StepKeepsClosed(before, calls[i]);
      }
    }
  }
}
