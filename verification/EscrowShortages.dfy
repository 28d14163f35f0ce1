/** Which shortages would count without the rollback, in terms of the calls and of the tokens. */
module EscrowShortages {
  import opened Prelude
  import opened EscrowSpec
  import opened EscrowRuns
  import opened EscrowRefinement
  import opened EscrowRollback
  import B = CircuitBreaker

  // ---------------------------------------------------------------------------------------------
  // Calls that pay nothing before they fall short
  // ---------------------------------------------------------------------------------------------

  predicate NothingPaidFirst(l: Ledger, calls: seq<Call>) {
    forall i :: 0 <= i < |calls| ==> PaidBefore(l, calls[i]) == []
  }

  /** Single and batch calls, and trigger calls whose first selected schedule is already too large. */
  lemma NothingPaidFirstExactly(l: Ledger, c: Call)
    requires FallsShort(l, c)
    ensures PaidBefore(l, c) == []
            <==>
            || c.op.DoSingle? || c.op.DoBatch?
            || (&& l.program.Some? && Selected(l, c.tx.now) != []
                && TriggerAt(l, Selected(l, c.tx.now)[0], c.tx.now).Abort?)
  {
    OnlyPayoutsFallShort(l, c);
    if c.op.DoTrigger? {
      FirstDecides(l, Selected(l, c.tx.now), c.tx.now);
    }
  }

  lemma FirstDecides(l: Ledger, row: seq<nat>, now: U64)
    requires l.program.Some? && InRange(l, row) && TriggerEach(l, row, now).Abort?
    ensures row != [] && (PaidRow(l, row, now) == [] <==> TriggerAt(l, row[0], now).Abort?)
  {
    var p := PaidRow(l, row, now);
    PaidRowNext(l, row, now);
    assert TriggerEach(l, [], now) == Commit(l);
    if p != [] {
      assert p[0] == row[0];
      FirstOfPaid(l, p, now);
    }
  }

  lemma {:induction false} FirstOfPaid(l: Ledger, p: seq<nat>, now: U64)
    requires l.program.Some? && InRange(l, p) && p != [] && TriggerEach(l, p, now).Commit?
    ensures TriggerAt(l, p[0], now).Commit?
    decreases |p|
  {
    if |p| == 1 {
      assert p[..0] == [] && TriggerEach(l, [], now) == Commit(l);
    } else {
      FirstOfPaid(l, p[..|p| - 1], now);
    }
  }

  lemma {:induction false} AllHit(l: Ledger, trace: seq<Ledger>, calls: seq<Call>, k: nat)
    requires k <= |calls| < |trace| && NothingPaidFirst(l, calls)
    ensures Hits(l, trace, calls, k) == k
  {
    if k == 0 {
    } else {
      AllHit(l, trace, calls, k - 1);
      assert PaidBefore(l, calls[k - 1]) == [];
    }
  }

  lemma NothingPaidKeepsTokens(l: Ledger, u: Ledger, c: Call, m: Ledger)
    requires FallsShort(l, c) && SameBooks(l, u) && Leaves(u, c, m) && PaidBefore(l, c) == []
    ensures m.balances == u.balances
  {
    CallLeavesShortage(l, u, c, m);
    assert TriggerEach(u, [], c.tx.now) == Commit(u);
  }

  lemma TokensStayStep(l: Ledger, trace: seq<Ledger>, calls: seq<Call>, k: nat)
    requires UnrolledRun(trace, calls) && AllShort(l, calls) && NothingPaidFirst(l, calls)
    requires 0 < k <= |calls| && SameBooks(l, trace[k - 1])
    ensures trace[k].balances == trace[k - 1].balances
  {
    assert PaidBefore(l, calls[k - 1]) == [];
    NothingPaidKeepsTokens(l, trace[k - 1], calls[k - 1], trace[k]);
  }

  predicate SameTokens(trace: seq<Ledger>) {
    forall i :: 0 < i < |trace| ==> trace[i].balances == trace[i - 1].balances
  }

  lemma EveryCallKeepsTokens(l: Ledger, trace: seq<Ledger>, calls: seq<Call>)
    requires Counted(l.breaker, l.breaker.cfg, 0) && l.breaker.cfg.failureThreshold >= 1
    requires UnrolledRun(trace, calls) && trace[0] == l && AllShort(l, calls) && NothingPaidFirst(l, calls)
    ensures SameTokens(trace)
  {
    forall i | 0 < i < |trace|
      ensures trace[i].balances == trace[i - 1].balances
    {
      UnrolledCounts(l, trace, calls, i - 1);
      TokensStayStep(l, trace, calls, i);
    }
  }

  lemma {:induction false} TokensStay(trace: seq<Ledger>, k: nat)
    requires SameTokens(trace) && k < |trace|
    ensures trace[k].balances == trace[0].balances
  {
    if k == 0 {
    } else {
      TokensStay(trace, k - 1);
    }
  }

  /** Main result: if the calls pay nothing before they fall short, every one would count, and without
      the rollback nothing but the breaker would change. */
  lemma {:induction false} EveryShortageWouldCount(
    start: Ledger, before: seq<Call>, calls: seq<Call>, trace: seq<Ledger>, k: nat)
    requires Fresh(start) && At(start, before, |before|).breaker.state == B.Closed
    requires AllShort(At(start, before, |before|), calls) && k <= |calls|
    requires UnrolledRun(trace, calls) && trace[0] == At(start, before, |before|)
    requires NothingPaidFirst(At(start, before, |before|), calls)
    ensures var l := At(start, before, |before|);
      && trace[k] == l.(breaker := trace[k].breaker)
      && trace[k].breaker.failures == Min(k, l.breaker.cfg.failureThreshold)
      && (trace[k].breaker.state == B.Open <==> k >= l.breaker.cfg.failureThreshold)
  {
    RunKeepsInv(start, before, |before|);
    AllHit(trace[0], trace, calls, k);
    EveryCallKeepsTokens(trace[0], trace, calls);
    TokensStay(trace, k);
    UnrolledCounts(trace[0], trace, calls, k);
  }

  // ---------------------------------------------------------------------------------------------
  // In terms of tokens
  // ---------------------------------------------------------------------------------------------

  predicate NoScheduleToSelf(l: Ledger) {
    forall i :: 0 <= i < |l.schedules| ==> l.schedules[i].recipient != l.self
  }

  lemma OneReleaseTakes(l: Ledger, m: Ledger, i: nat, now: U64)
    requires l.program.Some? && m.program.Some? && i < |l.schedules| == |m.schedules|
    requires m.schedules[i] == l.schedules[i]
    requires l.schedules[i].recipient != m.self && 0 < l.schedules[i].amount <= m.program.value.remaining
    ensures TriggerAt(m, i, now).Commit? <==> l.schedules[i].amount <= Balance(m.balances, m.self)
    ensures TriggerAt(m, i, now).Commit? ==>
              && TriggerAt(m, i, now).state.self == m.self
              && Balance(TriggerAt(m, i, now).state.balances, m.self)
                 == Balance(m.balances, m.self) - l.schedules[i].amount
  {
    if Transfer(m.balances, m.self, l.schedules[i].recipient, l.schedules[i].amount).Some? {
      TransferCosts(m.balances, m.self, l.schedules[i].recipient, l.schedules[i].amount);
    }
  }

  /** A row whose amounts fit the remaining balance goes through exactly when the tokens cover it. */
  lemma {:induction false} RowTakesTokens(u: Ledger, row: seq<nat>, now: U64)
    requires u.program.Some? && Numbered(u) && NoScheduleToSelf(u) && Releasable(u, row)
    requires Due(u, row) <= u.program.value.remaining || row == []
    ensures TriggerEach(u, row, now).Commit? <==> Due(u, row) <= Balance(u.balances, u.self)
    ensures TriggerEach(u, row, now).Commit? ==>
              var m := TriggerEach(u, row, now).state;
              m.self == u.self && Balance(m.balances, m.self) == Balance(u.balances, u.self) - Due(u, row)
    decreases |row|
  {
    if row == [] {
    } else {
      var n := |row| - 1;
      var front, last := row[..n], row[n];
      DueNonnegative(u, front);
      RowTakesTokens(u, front, now);
      if TriggerEach(u, front, now).Commit? {
        AfterFront(u, front, last, now);
        OneReleaseTakes(u, TriggerEach(u, front, now).state, last, now);
      }
    }
  }

  /** What a call pays out before it falls short. */
  function DueBefore(l: Ledger, c: Call): int {
    Due(l, PaidBefore(l, c))
  }

  function DueBeforeAll(l: Ledger, calls: seq<Call>, k: nat): int
    requires k <= |calls|
  {
    if k == 0 then 0 else DueBeforeAll(l, calls, k - 1) + DueBefore(l, calls[k - 1])
  }

  lemma {:induction false} DueElsewhere(l: Ledger, u: Ledger, row: seq<nat>)
    requires SameBooks(l, u) && InRange(l, row)
    ensures Due(u, row) == Due(l, row)
    decreases |row|
  {
    if row == [] {
    } else {
      DueElsewhere(l, u, row[..|row| - 1]);
    }
  }

  lemma PaidBeforeReleasable(l: Ledger, c: Call)
    requires Inv(l) && l.program.Some?
    ensures Releasable(l, PaidBefore(l, c))
    ensures DueBefore(l, c) >= 0
    ensures PaidBefore(l, c) == [] || DueBefore(l, c) <= l.program.value.remaining
  {
    SelectedReleasable(l, c.tx.now);
    DueNonnegative(l, PaidBefore(l, c));
    var p := PaidBefore(l, c);
    assert Releasable(l, p);
    if p != [] {
      RowFits(l, p, c.tx.now);
    }
  }

  lemma RowFits(l: Ledger, p: seq<nat>, now: U64)
    requires l.program.Some? && Numbered(l) && Releasable(l, p) && p != [] && TriggerEach(l, p, now).Commit?
    ensures Due(l, p) <= l.program.value.remaining
  {
    var n := |p| - 1;
    AfterFront(l, p[..n], p[n], now);
  }

  lemma CoveredByTokens(l: Ledger, u: Ledger, c: Call)
    requires Inv(l) && l.program.Some? && NoScheduleToSelf(l) && SameBooks(l, u)
    ensures Covered(l, u, c) <==> DueBefore(l, c) <= Balance(u.balances, l.self)
    ensures Covered(l, u, c) ==>
              Balance(TriggerEach(u, PaidBefore(l, c), c.tx.now).state.balances, l.self)
              == Balance(u.balances, l.self) - DueBefore(l, c)
  {
    PaidBeforeReleasable(l, c);
    DueElsewhere(l, u, PaidBefore(l, c));
    assert Releasable(u, PaidBefore(l, c));
    RowTakesTokens(u, PaidBefore(l, c), c.tx.now);
  }

  /** Where a run without rollback stands as long as the tokens last, and that it then falls behind. */
  predicate KeepsUp(l: Ledger, u: Ledger, hits: nat, k: nat, due: int) {
    if due <= Balance(l.balances, l.self)
    then hits == k && Balance(u.balances, l.self) == Balance(l.balances, l.self) - due
    else hits < k
  }

  lemma KeepsUpOneMore(l: Ledger, u: Ledger, m: Ledger, c: Call, hits: nat, k: nat, due: int)
    requires Inv(l) && NoScheduleToSelf(l) && FallsShort(l, c) && SameBooks(l, u) && Leaves(u, c, m)
    requires hits < l.breaker.cfg.failureThreshold && CountedFrom(l, u, hits) && KeepsUp(l, u, hits, k, due)
    ensures KeepsUp(l, m, hits + Hit(l, u, c), k + 1, due + DueBefore(l, c))
  {
    OnlyPayoutsFallShort(l, c);
    CallLeavesShortage(l, u, c, m);
    CoveredByTokens(l, u, c);
    PaidBeforeReleasable(l, c);
  }

  lemma {:induction false} HitsWhileTokensLast(l: Ledger, trace: seq<Ledger>, calls: seq<Call>, k: nat)
    requires Inv(l) && NoScheduleToSelf(l) && l.breaker.state == B.Closed
    requires UnrolledRun(trace, calls) && trace[0] == l && AllShort(l, calls)
    requires k <= |calls| && k <= l.breaker.cfg.failureThreshold
    ensures Hits(l, trace, calls, k) <= k
    ensures KeepsUp(l, trace[k], Hits(l, trace, calls, k), k, DueBeforeAll(l, calls, k))
  {
    if k == 0 {
    } else {
      HitsWhileTokensLast(l, trace, calls, k - 1);
      UnrolledCounts(l, trace, calls, k - 1);
      KeepsUpOneMore(l, trace[k - 1], trace[k], calls[k - 1], Hits(l, trace, calls, k - 1), k - 1,
                     DueBeforeAll(l, calls, k - 1));
    }
  }

  /** Main result: when no schedule pays the contract itself, up to the threshold all the calls would
      have counted if and only if the tokens cover what they pay before falling short, all together;
      so exactly then would as many calls as the threshold have opened the circuit. */
  lemma {:induction false} ShortagesCountWhileTokensLast(
    start: Ledger, before: seq<Call>, calls: seq<Call>, trace: seq<Ledger>, k: nat)
    requires Fresh(start) && At(start, before, |before|).breaker.state == B.Closed
    requires NoScheduleToSelf(At(start, before, |before|)) && AllShort(At(start, before, |before|), calls)
    requires UnrolledRun(trace, calls) && trace[0] == At(start, before, |before|)
    requires k <= |calls| && k <= At(start, before, |before|).breaker.cfg.failureThreshold
    ensures var l := At(start, before, |before|);
      && (trace[k].breaker.failures == k <==> DueBeforeAll(l, calls, k) <= Balance(l.balances, l.self))
      && (trace[k].breaker.state == B.Open <==>
            k == l.breaker.cfg.failureThreshold && DueBeforeAll(l, calls, k) <= Balance(l.balances, l.self))
  {
    RunKeepsInv(start, before, |before|);
    HitsWhileTokensLast(trace[0], trace, calls, k);
    UnrolledCounts(trace[0], trace, calls, k);
  }

  // ---------------------------------------------------------------------------------------------
  // What a recorded shortage says
  // ---------------------------------------------------------------------------------------------

  /** Main result: the breaker as a call short of funds leaves it before the rollback has one failure
      more and, if the log has room for any, an entry naming route, program, reason and time last. */
  lemma ShortageIsDescribed(l: Ledger, c: Call)
    requires FallsShort(l, c) && l.breaker.failures < U32_MAX
    ensures l.program.Some?
    ensures var b := WithShortage(l, OperationName(c.op), c.tx.now);
      && b.failures == l.breaker.failures + 1 && b.lastFailure == c.tx.now
      && (l.breaker.cfg.maxErrorLog > 0 ==>
            && b.log != []
            && b.log[|b.log| - 1]
               == B.ErrorEntry(OperationName(c.op), l.program.value.id, 1003, c.tx.now, l.breaker.failures + 1))
    ensures c.op.DoSingle? ==> OperationName(c.op) == "sngl_pay"
    ensures c.op.DoBatch? ==> OperationName(c.op) == "batch_pay"
    ensures c.op.DoTrigger? ==> OperationName(c.op) == "trg_rels"
  {
    OnlyPayoutsFallShort(l, c);
  }
}
