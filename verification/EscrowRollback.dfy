/** A shortage is recorded in the breaker and then rolled back. What the rollback hides: each shortage
    would count towards opening the circuit, and what a trigger call pays before it falls short would
    be gone each time. */
module EscrowRollback {
  import opened Prelude
  import opened EscrowSpec
  import opened EscrowLoops
  import opened EscrowRuns
  import B = CircuitBreaker

  // ---------------------------------------------------------------------------------------------
  // A host that rolls nothing back
  // ---------------------------------------------------------------------------------------------

  predicate FallsShort(l: Ledger, c: Call) {
    Step(l, c) == Abort(InsufficientBalance)
  }

  predicate AllShort(l: Ledger, calls: seq<Call>) {
    forall i :: 0 <= i < |calls| ==> FallsShort(l, calls[i])
  }

  /** The body of a payout call, run on `l`, may leave `m` behind: what the contract's bodies promise. */
  predicate Leaves(l: Ledger, c: Call, m: Ledger) {
    var panic := match Step(l, c) case Commit(_) => None case Abort(e) => Some(e);
    match c.op
    case DoSingle(to, amount) => Ran(l, m, panic, SinglePayout(l, c.tx, to, amount), "sngl_pay", c.tx.now)
    case DoBatch(tos, amounts) => Ran(l, m, panic, BatchPayout(l, c.tx, tos, amounts), "batch_pay", c.tx.now)
    case DoTrigger => RanTrigger(l, m, panic, c.tx)
    case _ => true
  }

  /** The successive ledgers of a run of payout calls on a host that keeps what a panicking call wrote. */
  predicate UnrolledRun(trace: seq<Ledger>, calls: seq<Call>) {
    && |trace| == |calls| + 1
    && forall i :: 0 <= i < |calls| ==> Leaves(trace[i], calls[i], trace[i + 1])
  }

  /** Only the tokens and the breaker differ. */
  predicate SameBooks(l: Ledger, u: Ledger) {
    u == l.(balances := u.balances, breaker := u.breaker)
  }

  /** The releases a call makes before it falls short: none unless it is a trigger call. */
  function PaidBefore(l: Ledger, c: Call): (r: seq<nat>)
    ensures InRange(l, r)
    ensures l.program.Some? ==> TriggerEach(l, r, c.tx.now).Commit?
  {
    if c.op.DoTrigger? && l.program.Some? then PaidRow(l, Selected(l, c.tx.now), c.tx.now) else []
  }

  /** The tokens of `u` still pay for the releases that the call makes in `l` before it falls short. */
  predicate Covered(l: Ledger, u: Ledger, c: Call) {
    l.program.Some? && SameBooks(l, u) ==> TriggerEach(u, PaidBefore(l, c), c.tx.now).Commit?
  }

  // ---------------------------------------------------------------------------------------------
  // Releases with other tokens
  // ---------------------------------------------------------------------------------------------

  lemma {:induction false} EligibleIgnoresTokens(l: Ledger, u: Ledger, now: U64, k: nat)
    requires SameBooks(l, u) && k <= |l.schedules|
    ensures EligibleBelow(u, now, k) == EligibleBelow(l, now, k)
  {
    if k == 0 {
    } else {
      EligibleIgnoresTokens(l, u, now, k - 1);
    }
  }

  lemma SelectedIgnoresTokens(l: Ledger, u: Ledger, now: U64)
    requires SameBooks(l, u)
    ensures Selected(u, now) == Selected(l, now)
  {
    EligibleIgnoresTokens(l, u, now, |l.schedules|);
  }

  /** With other tokens a release that goes through still does, or its transfer fails. */
  lemma TriggerAtOtherTokens(l: Ledger, u: Ledger, i: nat, now: U64)
    requires SameBooks(l, u) && l.program.Some? && i < |l.schedules|
    ensures TriggerAt(l, i, now) == Abort(InsufficientBalance) ==> TriggerAt(u, i, now) == Abort(InsufficientBalance)
    ensures TriggerAt(l, i, now).Commit? ==>
              var r := TriggerAt(u, i, now);
              r == Abort(TransferFailed) || (r.Commit? && SameBooks(TriggerAt(l, i, now).state, r.state))
  {
  }

  lemma {:induction false} TriggerEachOtherTokens(l: Ledger, u: Ledger, indices: seq<nat>, now: U64)
    requires SameBooks(l, u) && l.program.Some? && InRange(l, indices) && TriggerEach(l, indices, now).Commit?
    ensures var r := TriggerEach(u, indices, now);
      r == Abort(TransferFailed) || (r.Commit? && SameBooks(TriggerEach(l, indices, now).state, r.state))
    decreases |indices|
  {
    if indices == [] {
    } else {
      var n := |indices| - 1;
      TriggerEachOtherTokens(l, u, indices[..n], now);
      if TriggerEach(u, indices[..n], now).Commit? {
        TriggerAtOtherTokens(TriggerEach(l, indices[..n], now).state, TriggerEach(u, indices[..n], now).state,
                             indices[n], now);
      }
    }
  }

  lemma {:induction false} TriggerEachKeepsBreaker(l: Ledger, indices: seq<nat>, now: U64)
    requires l.program.Some? && InRange(l, indices) && TriggerEach(l, indices, now).Commit?
    ensures TriggerEach(l, indices, now).state.breaker == l.breaker
    decreases |indices|
  {
    if indices == [] {
    } else {
      TriggerEachKeepsBreaker(l, indices[..|indices| - 1], now);
    }
  }

  /** A row that fails does so at the first release it does not pay, for that release's reason. */
  lemma {:induction false} PaidRowNext(l: Ledger, row: seq<nat>, now: U64)
    requires l.program.Some? && InRange(l, row) && TriggerEach(l, row, now).Abort?
    ensures var p := PaidRow(l, row, now);
      && |p| < |row| && p + [row[|p|]] <= row
      && TriggerEach(l, row, now) == TriggerAt(TriggerEach(l, p, now).state, row[|p|], now)
    decreases |row|
  {
    var front := row[..|row| - 1];
    if TriggerEach(l, front, now).Commit? {
      assert row == front + [row[|row| - 1]];
    } else {
      PaidRowNext(l, front, now);
    }
  }

  // ---------------------------------------------------------------------------------------------
  // One call
  // ---------------------------------------------------------------------------------------------

  /** How a trigger call that is short in `l` ends in `u`: short again after the same releases if the
      tokens cover them, and otherwise with a failed transfer. */
  lemma ShortRowOtherTokens(l: Ledger, u: Ledger, row: seq<nat>, now: U64)
    requires SameBooks(l, u) && l.program.Some? && InRange(l, row)
    requires TriggerEach(l, row, now) == Abort(InsufficientBalance)
    ensures var p := PaidRow(l, row, now);
      if TriggerEach(u, p, now).Commit?
      then TriggerEach(u, row, now) == Abort(InsufficientBalance) && PaidRow(u, row, now) == p
      else TriggerEach(u, row, now) == Abort(TransferFailed)
  {
    var p := PaidRow(l, row, now);
    PaidRowNext(l, row, now);
    TriggerEachOtherTokens(l, u, p, now);
    if TriggerEach(u, p, now).Commit? {
      var m, w, i := TriggerEach(l, p, now).state, TriggerEach(u, p, now).state, row[|p|];
      TriggerAtOtherTokens(m, w, i, now);
      PaidRowStopsHere(u, p, i, row, w, now);
      AbortCarries(u, p, i, row, w, now);
    } else {
      TriggerEachStops(u, p, row, now);
    }
  }

  /** What a call that is short in `l` does to the breaker and the tokens of `u`. */
  predicate LeavesShortage(l: Ledger, u: Ledger, c: Call, m: Ledger)
    requires l.program.Some? && SameBooks(l, u)
  {
    && SameBooks(l, m)
    && (!B.Allows(u.breaker) ==> m == u)
    && (B.Allows(u.breaker) && !Covered(l, u, c) ==> m.breaker == u.breaker)
    && (B.Allows(u.breaker) && Covered(l, u, c) ==>
          && m.balances == TriggerEach(u, PaidBefore(l, c), c.tx.now).state.balances
          && m.breaker == WithShortage(u, OperationName(c.op), c.tx.now))
  }

  /** The name under which a payout route records its failures. */
  function OperationName(op: Op): string {
    match op
    case DoSingle(_, _) => "sngl_pay"
    case DoBatch(_, _) => "batch_pay"
    case _ => "trg_rels"
  }

  lemma TriggerLeavesShortage(l: Ledger, u: Ledger, c: Call, m: Ledger)
    requires c.op.DoTrigger? && Trigger(l, c.tx) == Abort(InsufficientBalance) && l.program.Some? && SameBooks(l, u)
    requires Leaves(u, c, m)
    ensures LeavesShortage(l, u, c, m)
  {
    SelectedIgnoresTokens(l, u, c.tx.now);
    ShortRowOtherTokens(l, u, Selected(l, c.tx.now), c.tx.now);
  }

  lemma SingleShortOtherTokens(l: Ledger, u: Ledger, tx: Tx, to: Address, amount: I128)
    requires SinglePayout(l, tx, to, amount) == Abort(InsufficientBalance) && SameBooks(l, u)
    ensures SinglePayout(u, tx, to, amount) == Abort(if B.Allows(u.breaker) then InsufficientBalance else CircuitOpen)
  {
  }

  lemma BatchShortOtherTokens(l: Ledger, u: Ledger, tx: Tx, tos: seq<Address>, amounts: seq<I128>)
    requires BatchPayout(l, tx, tos, amounts) == Abort(InsufficientBalance) && SameBooks(l, u)
    ensures BatchPayout(u, tx, tos, amounts) == Abort(if B.Allows(u.breaker) then InsufficientBalance else CircuitOpen)
  {
    assert forall i :: 0 <= i < |tos| ==> Payable(u, tos[i]) == Payable(l, tos[i]);
    assert forall i :: 0 <= i < |tos| ==> IsOpen(u, Recipient(tos[i])) == IsOpen(l, Recipient(tos[i]));
  }

  lemma DirectLeavesShortage(l: Ledger, u: Ledger, c: Call, m: Ledger)
    requires c.op.DoSingle? || c.op.DoBatch?
    requires Step(u, c) == Abort(if B.Allows(u.breaker) then InsufficientBalance else CircuitOpen)
    requires l.program.Some? && SameBooks(l, u) && Leaves(u, c, m)
    ensures LeavesShortage(l, u, c, m)
  {
    assert PaidBefore(l, c) == [];
  }

  lemma ReleaseNeverShort(l: Ledger, tx: Tx, id: U64, kind: ReleaseType)
    ensures ReleaseOne(l, tx, id, kind) != Abort(InsufficientBalance)
  {
  }

  lemma OnlyPayoutsFallShort(l: Ledger, c: Call)
    requires FallsShort(l, c)
    ensures l.program.Some? && B.Allows(l.breaker) && (c.op.DoSingle? || c.op.DoBatch? || c.op.DoTrigger?)
  {
    if c.op.DoRelease? {
      ReleaseNeverShort(l, c.tx, c.op.id, c.op.kind);
    }
  }

  lemma CallLeavesShortage(l: Ledger, u: Ledger, c: Call, m: Ledger)
    requires FallsShort(l, c) && SameBooks(l, u) && Leaves(u, c, m)
    ensures l.program.Some? && LeavesShortage(l, u, c, m)
  {
    OnlyPayoutsFallShort(l, c);
    match c.op
    case DoSingle(to, amount) =>
      SingleShortOtherTokens(l, u, c.tx, to, amount);
      DirectLeavesShortage(l, u, c, m);
    case DoBatch(tos, amounts) =>
      BatchShortOtherTokens(l, u, c.tx, tos, amounts);
      DirectLeavesShortage(l, u, c, m);
    case DoTrigger => TriggerLeavesShortage(l, u, c, m);
  }

  // ---------------------------------------------------------------------------------------------
  // Whole runs
  // ---------------------------------------------------------------------------------------------

  function Hit(l: Ledger, u: Ledger, c: Call): nat {
    if Covered(l, u, c) then 1 else 0
  }

  /** Which of the calls the tokens covered up to their shortage. */
  function Marks(l: Ledger, trace: seq<Ledger>, calls: seq<Call>): seq<nat>
    requires |calls| < |trace|
  {
    seq(|calls|, i requires 0 <= i < |calls| => Hit(l, trace[i], calls[i]))
  }

  function Total(marks: seq<nat>, k: nat): nat
    requires k <= |marks|
  {
    if k == 0 then 0 else Total(marks, k - 1) + marks[k - 1]
  }

  /** How many of the first `k` calls the tokens covered up to their shortage. */
  function Hits(l: Ledger, trace: seq<Ledger>, calls: seq<Call>, k: nat): nat
    requires k <= |calls| < |trace|
  {
    Total(Marks(l, trace, calls), k)
  }

  /** A breaker that closed, then counted `n` failures up to its threshold, and opened there. */
  predicate Counted(b: B.Breaker, cfg: B.Config, n: nat) {
    && b.cfg == cfg && b.failures == Min(n, cfg.failureThreshold)
    && b.state == if n >= cfg.failureThreshold then B.Open else B.Closed
  }

  lemma CountsOneMore(b: B.Breaker, cfg: B.Config, n: nat, operation: string, programId: string, now: U64)
    requires cfg.failureThreshold >= 1 && Counted(b, cfg, n)
    ensures !B.Allows(b) ==> Counted(b, cfg, n + 1)
    ensures B.Allows(b) ==>
              && b.failures < U32_MAX
              && Counted(B.OnFailure(b, operation, programId, B.ERR_INSUFFICIENT_BALANCE, now).state, cfg, n + 1)
  {
  }

  /** `u` has the books of `l` and a breaker that has counted `n` shortages. */
  predicate CountedFrom(l: Ledger, u: Ledger, n: nat) {
    SameBooks(l, u) && Counted(u.breaker, l.breaker.cfg, n)
  }

  lemma OneMoreCall(l: Ledger, u: Ledger, c: Call, m: Ledger, n: nat)
    requires l.breaker.cfg.failureThreshold >= 1 && CountedFrom(l, u, n) && FallsShort(l, c) && Leaves(u, c, m)
    ensures CountedFrom(l, m, n + Hit(l, u, c))
  {
    CallLeavesShortage(l, u, c, m);
    CountsOneMore(u.breaker, l.breaker.cfg, n, OperationName(c.op), l.program.value.id, c.tx.now);
  }

  /** From `u` to `m` the breaker counts `hits` more shortages. */
  ghost predicate Counts(l: Ledger, u: Ledger, m: Ledger, hits: nat) {
    forall n: nat :: CountedFrom(l, u, n) ==> CountedFrom(l, m, n + hits)
  }

  /** Along the trace the breaker counts what the marks say. */
  ghost predicate CountsMarks(l: Ledger, trace: seq<Ledger>, marks: seq<nat>) {
    && |trace| == |marks| + 1
    && forall i :: 0 <= i < |marks| ==> Counts(l, trace[i], trace[i + 1], marks[i])
  }

  lemma EveryCallCounts(l: Ledger, trace: seq<Ledger>, calls: seq<Call>)
    requires l.breaker.cfg.failureThreshold >= 1 && UnrolledRun(trace, calls) && AllShort(l, calls)
    ensures CountsMarks(l, trace, Marks(l, trace, calls))
  {
    var marks := Marks(l, trace, calls);
    forall i | 0 <= i < |marks|
      ensures Counts(l, trace[i], trace[i + 1], marks[i])
    {
      OneCallCounts(l, trace[i], calls[i], trace[i + 1]);
    }
  }

  lemma OneCallCounts(l: Ledger, u: Ledger, c: Call, m: Ledger)
    requires l.breaker.cfg.failureThreshold >= 1 && FallsShort(l, c) && Leaves(u, c, m)
    ensures Counts(l, u, m, Hit(l, u, c))
  {
    forall n: nat | CountedFrom(l, u, n)
      ensures CountedFrom(l, m, n + Hit(l, u, c))
    {
      OneMoreCall(l, u, c, m, n);
    }
  }

  lemma {:induction false} MarksAreCounted(l: Ledger, trace: seq<Ledger>, marks: seq<nat>, k: nat)
    requires CountsMarks(l, trace, marks) && CountedFrom(l, trace[0], 0) && k <= |marks|
    ensures CountedFrom(l, trace[k], Total(marks, k))
  {
    if k == 0 {
    } else {
      MarksAreCounted(l, trace, marks, k - 1);
      assert Counts(l, trace[k - 1], trace[k], marks[k - 1]);
    }
  }

  lemma {:induction false} UnrolledCounts(l: Ledger, trace: seq<Ledger>, calls: seq<Call>, k: nat)
    requires Counted(l.breaker, l.breaker.cfg, 0) && l.breaker.cfg.failureThreshold >= 1
    requires UnrolledRun(trace, calls) && trace[0] == l && AllShort(l, calls) && k <= |calls|
    ensures CountedFrom(l, trace[k], Hits(l, trace, calls, k))
  {
    EveryCallCounts(l, trace, calls);
    MarksAreCounted(l, trace, Marks(l, trace, calls), k);
  }

  lemma {:induction false} RolledBack(l: Ledger, calls: seq<Call>, k: nat)
    requires AllShort(l, calls) && k <= |calls|
    ensures At(l, calls, k) == l
  {
    if k == 0 {
    } else {
      RolledBack(l, calls, k - 1);
    }
  }

  /** Main result: take any payout calls that are short of funds in a reachable ledger with a closed
      circuit. With the rollback none of them leaves a trace. Without it nothing but tokens and
      breaker would change, and the breaker would count exactly those calls whose releases before
      the shortage the tokens still covered, opening when they reach the failure threshold. */
  lemma {:induction false} RollbackHidesShortages(
    start: Ledger, before: seq<Call>, calls: seq<Call>, trace: seq<Ledger>, k: nat)
    requires Fresh(start) && At(start, before, |before|).breaker.state == B.Closed
    requires AllShort(At(start, before, |before|), calls) && k <= |calls|
    requires UnrolledRun(trace, calls) && trace[0] == At(start, before, |before|)
    ensures var l := At(start, before, |before|);
      && At(l, calls, k) == l
      && SameBooks(l, trace[k])
      && trace[k].breaker.failures == Min(Hits(l, trace, calls, k), l.breaker.cfg.failureThreshold)
      && (trace[k].breaker.state == B.Open <==> Hits(l, trace, calls, k) >= l.breaker.cfg.failureThreshold)
  {
    RunKeepsInv(start, before, |before|);
    RolledBack(trace[0], calls, k);
    UnrolledCounts(trace[0], trace, calls, k);
  }
}
