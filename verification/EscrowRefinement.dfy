/** The bulk routes do what the single routes would: a batch is a row of single payouts, a trigger a
    row of automatic releases. */
module EscrowRefinement {
  import opened Prelude
  import opened EscrowSpec
  import opened EscrowLoops
  import opened EscrowRuns
  import B = CircuitBreaker

  lemma {:induction false} SuccessesKeepAllowing(b: B.Breaker, k: nat)
    requires B.Allows(b)
    ensures B.Allows(B.Successes(b, k))
    ensures b.state == B.Closed && k > 0 ==> B.Successes(b, k) == B.OnSuccess(b)
  {
    if k == 0 {
    } else {
      SuccessesKeepAllowing(b, k - 1);
    }
  }

  // ---------------------------------------------------------------------------------------------
  // Batch and singles
  // ---------------------------------------------------------------------------------------------

  /** Single payouts of the first `k` pairs, one after the other at the same time. */
  function Singles(l: Ledger, tx: Tx, tos: seq<Address>, amounts: seq<I128>, k: nat): Outcome<Ledger, Fault>
    requires k <= |tos| == |amounts|
  {
    if k == 0 then Commit(l)
    else
      match Singles(l, tx, tos, amounts, k - 1)
      case Abort(e) => Abort(e)
      case Commit(m) => SinglePayout(m, tx, tos[k - 1], amounts[k - 1])
  }

  /** Direct payouts are open to this caller now. */
  predicate PayoutsOpen(l: Ledger, tx: Tx) {
    && B.Allows(l.breaker) && !l.settings.releasePaused && !IsOpen(l, Everyone) && tx.governanceOk
    && l.program.Some? && l.program.value.payoutKey in tx.auth
  }

  predicate MayBePaid(l: Ledger, to: Address, amount: I128) {
    Payable(l, to) && !IsOpen(l, Recipient(to)) && amount > 0
  }

  /** Everything the first `k` payouts need, seen from the state before them. */
  predicate CanPay(l: Ledger, tx: Tx, tos: seq<Address>, amounts: seq<I128>, k: nat)
    requires k <= |tos| == |amounts|
  {
    && PayoutsOpen(l, tx)
    && (forall i :: 0 <= i < k ==> MayBePaid(l, tos[i], amounts[i]))
    && Sum(amounts, k) <= l.program.value.remaining
    && TransferAll(l.balances, l.self, tos, amounts, k).Some?
  }

  /** The alert threshold of single payouts can be computed. */
  predicate AlertFits(l: Ledger) {
    l.program.Some? ==> FitsI128(l.program.value.totalFunds * l.settings.largePayoutBps)
  }

  /** The ledger after `m` is `l` with the first `k` payouts made. */
  predicate PaidFrom(l: Ledger, m: Ledger, tx: Tx, tos: seq<Address>, amounts: seq<I128>, k: nat)
    requires k <= |tos| == |amounts| && CanPay(l, tx, tos, amounts, k)
  {
    var p := l.program.value;
    && m.program.Some?
    && m == l.(program := m.program, balances := TransferAll(l.balances, l.self, tos, amounts, k).value,
        breaker := m.breaker)
    && m.program.value == p.(remaining := m.program.value.remaining,
        payouts := p.payouts + Records(tos, amounts, tx.now, k))
    && m.program.value.remaining == p.remaining - Sum(amounts, k)
  }

  lemma CanPayShorter(l: Ledger, tx: Tx, tos: seq<Address>, amounts: seq<I128>, k: nat)
    requires 0 < k <= |tos| == |amounts| && CanPay(l, tx, tos, amounts, k)
    ensures CanPay(l, tx, tos, amounts, k - 1)
  {
    assert MayBePaid(l, tos[k - 1], amounts[k - 1]);
  }

  /** One more single payout after `k-1` of them. */
  lemma SingleAfterRow(l: Ledger, m: Ledger, tx: Tx, tos: seq<Address>, amounts: seq<I128>, k: nat)
    requires 0 < k <= |tos| == |amounts| && CanPay(l, tx, tos, amounts, k - 1) && AlertFits(l)
    requires PaidFrom(l, m, tx, tos, amounts, k - 1) && B.Allows(m.breaker)
    ensures var r := SinglePayout(m, tx, tos[k - 1], amounts[k - 1]);
      && (r.Commit? <==> CanPay(l, tx, tos, amounts, k))
      && (r.Commit? ==> PaidFrom(l, r.state, tx, tos, amounts, k) && r.state.breaker == B.OnSuccess(m.breaker))
  {
    var to, amount := tos[k - 1], amounts[k - 1];
    var r := SinglePayout(m, tx, to, amount);
    assert MayBePaid(l, to, amount) <==> MayBePaid(m, to, amount);
    assert PayoutsOpen(m, tx);
    if r.Commit? {
      assert CanPay(l, tx, tos, amounts, k);
      assert Records(tos, amounts, tx.now, k)
          == Records(tos, amounts, tx.now, k - 1) + [PayoutRecord(to, amount, tx.now)];
      var p := l.program.value;
      assert (p.payouts + Records(tos, amounts, tx.now, k - 1)) + [PayoutRecord(to, amount, tx.now)]
          == p.payouts + Records(tos, amounts, tx.now, k);
    }
  }

  lemma {:induction false} SinglesExact(l: Ledger, tx: Tx, tos: seq<Address>, amounts: seq<I128>, k: nat)
    requires k <= |tos| == |amounts| && PayoutsOpen(l, tx) && AlertFits(l) && l.program.value.remaining >= 0
    ensures var r := Singles(l, tx, tos, amounts, k);
      && (r.Commit? <==> CanPay(l, tx, tos, amounts, k))
      && (r.Commit? ==> PaidFrom(l, r.state, tx, tos, amounts, k) && r.state.breaker == B.Successes(l.breaker, k))
  {
    if k > 0 {
      SinglesExact(l, tx, tos, amounts, k - 1);
      SuccessesKeepAllowing(l.breaker, k - 1);
      if Singles(l, tx, tos, amounts, k - 1).Commit? {
        SingleAfterRow(l, Singles(l, tx, tos, amounts, k - 1).state, tx, tos, amounts, k);
      } else if CanPay(l, tx, tos, amounts, k) {
        CanPayShorter(l, tx, tos, amounts, k);
      }
    } else {
      assert Records(tos, amounts, tx.now, 0) == [];
      assert l.program.value.payouts + [] == l.program.value.payouts;
    }
  }

  /** Main result: a batch has one to a hundred recipients, and as many amounts. */
  lemma BatchSizeIsBounded(l: Ledger, tx: Tx, tos: seq<Address>, amounts: seq<I128>)
    requires !(1 <= |tos| == |amounts| <= 100)
    ensures BatchPayout(l, tx, tos, amounts).Abort?
  {
  }

  lemma BatchExact(l: Ledger, tx: Tx, tos: seq<Address>, amounts: seq<I128>)
    requires 1 <= |tos| == |amounts| <= 100
    ensures var r := BatchPayout(l, tx, tos, amounts);
      && (r.Commit? <==> CanPay(l, tx, tos, amounts, |tos|))
      && (r.Commit? ==> PaidFrom(l, r.state, tx, tos, amounts, |tos|) && r.state.breaker == B.OnSuccess(l.breaker))
  {
    var n := |tos|;
    CheckedTotalIsSum(amounts, n);
    if CanPay(l, tx, tos, amounts, n) {
      assert forall i :: 0 <= i < n ==> MayBePaid(l, tos[i], amounts[i]);
      SumPositive(amounts, n);
    }
  }

  /** A row that does not get past its first payout fails for a reason that also stops the batch. */
  lemma {:induction false} RowNeedsFirst(l: Ledger, tx: Tx, tos: seq<Address>, amounts: seq<I128>, k: nat)
    requires 1 <= k <= |tos| == |amounts| && SinglePayout(l, tx, tos[0], amounts[0]).Abort?
    ensures Singles(l, tx, tos, amounts, k).Abort?
  {
    if k > 1 {
      RowNeedsFirst(l, tx, tos, amounts, k - 1);
    } else {
      assert Singles(l, tx, tos, amounts, 0) == Commit(l);
    }
  }

  /** Main result: for 1 to 100 pairs, whoever the recipients are, a row of single payouts succeeds
      exactly when the batch does and the alert threshold, which only the single route computes in
      overflow-checked arithmetic, fits. Both then leave the same program data and tokens, and the
      same ledger altogether unless the breaker is half open and counts successes. */
  lemma BatchEqualsSingles(l: Ledger, tx: Tx, tos: seq<Address>, amounts: seq<I128>)
    requires 1 <= |tos| == |amounts| <= 100
    ensures var row := Singles(l, tx, tos, amounts, |tos|);
      var batch := BatchPayout(l, tx, tos, amounts);
      && (row.Commit? <==> batch.Commit? && AlertFits(l))
      && (row.Commit? ==>
            && row.state == batch.state.(breaker := row.state.breaker)
            && (l.breaker.state != B.HalfOpen ==> row.state == batch.state))
  {
    var n := |tos|;
    BatchExact(l, tx, tos, amounts);
    if PayoutsOpen(l, tx) && AlertFits(l) && l.program.value.remaining >= 0 {
      SinglesExact(l, tx, tos, amounts, n);
      SuccessesKeepAllowing(l.breaker, n);
      if Singles(l, tx, tos, amounts, n).Commit? {
        SameAfterPaying(l, Singles(l, tx, tos, amounts, n).state, BatchPayout(l, tx, tos, amounts).state, tx, tos,
            amounts);
      }
    } else {
      RowNeedsFirst(l, tx, tos, amounts, n);
      if CanPay(l, tx, tos, amounts, n) {
        assert forall i :: 0 <= i < n ==> MayBePaid(l, tos[i], amounts[i]);
        SumPositive(amounts, n);
      }
    }
  }

  lemma SameAfterPaying(l: Ledger, m: Ledger, m': Ledger, tx: Tx, tos: seq<Address>, amounts: seq<I128>)
    requires |tos| == |amounts| && CanPay(l, tx, tos, amounts, |tos|)
    requires PaidFrom(l, m, tx, tos, amounts, |tos|) && PaidFrom(l, m', tx, tos, amounts, |tos|)
    ensures m == m'.(breaker := m.breaker)
  {
  }

  // ---------------------------------------------------------------------------------------------
  // Trigger and automatic releases
  // ---------------------------------------------------------------------------------------------

  /** Automatic releases of the schedules at the given indices, by id, in that order. */
  function Automatics(l: Ledger, tx: Tx, indices: seq<nat>): Outcome<Ledger, Fault>
    requires InRange(l, indices) && |l.schedules| < U64_MAX
    decreases |indices|
  {
    if indices == [] then Commit(l)
    else
      var n := |indices| - 1;
      match Automatics(l, tx, indices[..n])
      case Abort(e) => Abort(e)
      case Commit(m) => ReleaseOne(m, tx, indices[n] + 1, Automatic)
  }

  /** The amounts of the schedules at the given indices. */
  function Due(l: Ledger, indices: seq<nat>): int
    requires InRange(l, indices)
  {
    if indices == [] then 0 else Due(l, indices[..|indices| - 1]) + l.schedules[indices[|indices| - 1]].amount
  }

  /** `a` is `m` without the payout records and with `k` more successes on the breaker of `l`. */
  predicate AutoTwin(l: Ledger, m: Ledger, a: Ledger, k: nat)
    requires l.program.Some? && m.program.Some?
  {
    && a == m.(program := Some(m.program.value.(payouts := l.program.value.payouts)),
        breaker := B.Successes(l.breaker, k))
    && SameElsewhere(l, m)
  }

  /** One more release after `k` of them, on the triggered side and on the automatic side. */
  lemma ReleaseOnBothSides(l: Ledger, m: Ledger, a: Ledger, tx: Tx, k: nat, i: nat)
    requires ReleasesOpen(l, tx) && Numbered(l) && m.program.Some? && AutoTwin(l, m, a, k)
    requires m.program.value.payoutKey == l.program.value.payoutKey
    requires i < |l.schedules| == |m.schedules| && m.schedules[i] == l.schedules[i] && Eligible(l, tx.now, i)
    requires forall j :: 0 <= j < |m.schedules| ==> m.schedules[j].id == j + 1
    ensures var t, r := TriggerAt(m, i, tx.now), ReleaseOne(a, tx, i + 1, Automatic);
      && (t.Commit? <==> r.Commit? && m.schedules[i].amount <= m.program.value.remaining)
      && (t.Commit? ==>
            AutoTwin(l, t.state, r.state, k + 1) && t.state.program.value.payoutKey == l.program.value.payoutKey)
  {
    SuccessesKeepAllowing(l.breaker, k);
    assert IndexOf(a.schedules, i + 1) == i;
    assert !IsOpen(a, Everyone) && !ScopeDisputed(a, i + 1, a.schedules[i].recipient)
        && Payable(a, a.schedules[i].recipient);
    assert FitsI128(m.program.value.remaining - m.schedules[i].amount)
           <== 0 < m.schedules[i].amount <= m.program.value.remaining;
    ReleaseAtTwins(m, a, i, tx.now);
    if TriggerAt(m, i, tx.now).Commit? {
      TriggerAtFrame(m, i, tx.now);
    }
  }

  lemma ReleaseAtTwins(m: Ledger, a: Ledger, i: nat, now: U64)
    requires m.program.Some? && a.program.Some? && i < |m.schedules|
    requires a == m.(program := Some(m.program.value.(payouts := a.program.value.payouts)), breaker := a.breaker)
    ensures var x, y := ReleaseAt(m, i, now, m.self, Automatic), ReleaseAt(a, i, now, a.self, Automatic);
      && (x.Commit? <==> y.Commit?)
      && (x.Commit? ==> y.state == x.state.(program := Some(x.state.program.value.(payouts := a.program.value.payouts)),
                                            breaker := a.breaker))
  {
  }

  lemma {:induction false} TriggerEachKeepsIds(l: Ledger, indices: seq<nat>, now: U64)
    requires l.program.Some? && InRange(l, indices) && TriggerEach(l, indices, now).Commit?
    ensures var m := TriggerEach(l, indices, now).state;
      && |m.schedules| == |l.schedules|
      && m.program.value.payoutKey == l.program.value.payoutKey
      && forall j :: 0 <= j < |m.schedules| ==> m.schedules[j].id == l.schedules[j].id
    decreases |indices|
  {
    if indices == [] {
    } else {
      TriggerEachKeepsIds(l, indices[..|indices| - 1], now);
    }
  }

  lemma {:induction false} TriggerEachSpends(l: Ledger, indices: seq<nat>, now: U64)
    requires l.program.Some? && Releasable(l, indices) && TriggerEach(l, indices, now).Commit?
    ensures TriggerEach(l, indices, now).state.program.value.remaining == l.program.value.remaining - Due(l, indices)
    decreases |indices|
  {
    if indices == [] {
    } else {
      var n := |indices| - 1;
      TriggerEachSpends(l, indices[..n], now);
      TriggerEachLeavesOthers(l, indices[..n], now, indices[n]);
    }
  }

  lemma {:induction false} DueNonnegative(l: Ledger, indices: seq<nat>)
    requires Numbered(l) && InRange(l, indices)
    ensures Due(l, indices) >= |indices|
    decreases |indices|
  {
    if indices == [] {
    } else {
      DueNonnegative(l, indices[..|indices| - 1]);
    }
  }

  predicate AllEligibleNow(l: Ledger, indices: seq<nat>, now: U64)
    requires InRange(l, indices)
  {
    forall k :: 0 <= k < |indices| ==> Eligible(l, now, indices[k])
  }

  /** The amounts fit what remains; releasing nothing always fits. */
  predicate DueFits(l: Ledger, indices: seq<nat>)
    requires l.program.Some? && InRange(l, indices)
  {
    indices == [] || Due(l, indices) <= l.program.value.remaining
  }

  /** What the releases before the last one leave for it. */
  lemma AfterFront(l: Ledger, front: seq<nat>, last: nat, now: U64)
    requires l.program.Some? && Numbered(l) && Releasable(l, front) && last < |l.schedules| && last !in front
    requires TriggerEach(l, front, now).Commit?
    ensures var m := TriggerEach(l, front, now).state;
      && m.program.value.payoutKey == l.program.value.payoutKey
      && m.program.value.remaining == l.program.value.remaining - Due(l, front)
      && m.schedules[last] == l.schedules[last]
      && forall j :: 0 <= j < |m.schedules| ==> m.schedules[j].id == j + 1
  {
    TriggerEachKeepsIds(l, front, now);
    TriggerEachLeavesOthers(l, front, now, last);
    TriggerEachSpends(l, front, now);
  }

  lemma LastRelease(l: Ledger, tx: Tx, indices: seq<nat>, m: Ledger, a: Ledger)
    requires l.program.Some? && InRange(l, indices) && |l.schedules| < U64_MAX && indices != []
    requires TriggerEach(l, indices[..|indices| - 1], tx.now) == Commit(m)
    requires Automatics(l, tx, indices[..|indices| - 1]) == Commit(a)
    ensures m.program.Some? && |m.schedules| == |l.schedules|
    ensures TriggerEach(l, indices, tx.now) == TriggerAt(m, indices[|indices| - 1], tx.now)
    ensures Automatics(l, tx, indices) == ReleaseOne(a, tx, indices[|indices| - 1] + 1, Automatic)
  {
  }

  lemma TwinStep(l: Ledger, tx: Tx, front: seq<nat>, last: nat, m: Ledger, a: Ledger)
    requires ReleasesOpen(l, tx) && Numbered(l) && |l.schedules| < U64_MAX
    requires Releasable(l, front) && last < |l.schedules| && last !in front && Eligible(l, tx.now, last)
    requires TriggerEach(l, front, tx.now) == Commit(m) && AutoTwin(l, m, a, |front|)
    ensures |m.schedules| == |l.schedules|
    ensures var t, r := TriggerAt(m, last, tx.now), ReleaseOne(a, tx, last + 1, Automatic);
      && (t.Commit? <==> r.Commit? && Due(l, front) + l.schedules[last].amount <= l.program.value.remaining)
      && (t.Commit? ==> AutoTwin(l, t.state, r.state, |front| + 1))
  {
    AfterFront(l, front, last, tx.now);
    ReleaseOnBothSides(l, m, a, tx, |front|, last);
  }

  /** Triggering the schedules at these indices and releasing them one by one come to the same. */
  ghost predicate Twins(l: Ledger, tx: Tx, indices: seq<nat>)
    requires l.program.Some? && InRange(l, indices) && |l.schedules| < U64_MAX
  {
    var t, r := TriggerEach(l, indices, tx.now), Automatics(l, tx, indices);
    && (t.Commit? <==> r.Commit? && DueFits(l, indices))
    && (t.Commit? ==> AutoTwin(l, t.state, r.state, |indices|))
  }

  lemma FrontOf(l: Ledger, indices: seq<nat>, now: U64)
    requires indices != [] && Releasable(l, indices) && AllEligibleNow(l, indices, now)
    ensures var front, last := indices[..|indices| - 1], indices[|indices| - 1];
      && Releasable(l, front) && AllEligibleNow(l, front, now)
      && last < |l.schedules| && last !in front && Eligible(l, now, last)
  {
  }

  lemma TwinsAfterCommit(l: Ledger, tx: Tx, indices: seq<nat>, front: seq<nat>, last: nat)
    requires ReleasesOpen(l, tx) && Numbered(l) && |l.schedules| < U64_MAX
    requires indices != [] && InRange(l, indices) && front == indices[..|indices| - 1] && last == indices[|indices| - 1]
    requires Releasable(l, front) && last !in front && Eligible(l, tx.now, last)
    requires Twins(l, tx, front) && TriggerEach(l, front, tx.now).Commit?
    ensures Twins(l, tx, indices)
  {
    var m, a := TriggerEach(l, front, tx.now).state, Automatics(l, tx, front).state;
    LastRelease(l, tx, indices, m, a);
    TwinStep(l, tx, front, last, m, a);
    TwinsOfLast(l, tx, indices, TriggerAt(m, last, tx.now), ReleaseOne(a, tx, last + 1, Automatic));
  }

  lemma TwinsOfLast(l: Ledger, tx: Tx, indices: seq<nat>, t: Outcome<Ledger, Fault>, r: Outcome<Ledger, Fault>)
    requires l.program.Some? && indices != [] && InRange(l, indices) && |l.schedules| < U64_MAX
    requires TriggerEach(l, indices, tx.now) == t && Automatics(l, tx, indices) == r
    requires var front, last := indices[..|indices| - 1], indices[|indices| - 1];
      t.Commit? <==> r.Commit? && Due(l, front) + l.schedules[last].amount <= l.program.value.remaining
    requires t.Commit? ==> t.state.program.Some? && AutoTwin(l, t.state, r.state, |indices|)
    ensures Twins(l, tx, indices)
  {
  }

  lemma TwinsAfterAbort(l: Ledger, tx: Tx, indices: seq<nat>, front: seq<nat>)
    requires Numbered(l) && l.program.Some? && |l.schedules| < U64_MAX
    requires indices != [] && InRange(l, indices) && front == indices[..|indices| - 1] && InRange(l, front)
    requires Twins(l, tx, front) && TriggerEach(l, front, tx.now).Abort?
    ensures Twins(l, tx, indices)
  {
    if DueFits(l, indices) {
      assert DueFits(l, front);
    }
  }

  lemma {:induction false} TriggerEachTwin(l: Ledger, tx: Tx, indices: seq<nat>)
    requires ReleasesOpen(l, tx) && Numbered(l) && |l.schedules| < U64_MAX
    requires Releasable(l, indices) && AllEligibleNow(l, indices, tx.now)
    ensures Twins(l, tx, indices)
    decreases |indices|
  {
    if indices == [] {
    } else {
      var front, last := indices[..|indices| - 1], indices[|indices| - 1];
      FrontOf(l, indices, tx.now);
      TriggerEachTwin(l, tx, front);
      if TriggerEach(l, front, tx.now).Commit? {
        TwinsAfterCommit(l, tx, indices, front, last);
      } else {
        TwinsAfterAbort(l, tx, indices, front);
      }
    }
  }

  /** Main result: a trigger call succeeds exactly when the automatic releases of the schedules it
      selects, in index order, all succeed and their amounts fit the remaining balance. Both then
      leave the same ledger, except that the trigger also notes the releases as payouts and a
      half-open breaker counts the successes one by one. */
  lemma TriggerEqualsAutomatics(l: Ledger, tx: Tx)
    requires Inv(l) && ReleasesOpen(l, tx) && |l.schedules| < U64_MAX
    ensures var t, r := Trigger(l, tx), Automatics(l, tx, Selected(l, tx.now));
      && (t.Commit? <==> r.Commit? && DueFits(l, Selected(l, tx.now)))
      && (t.Commit? ==>
            && t.state.program.Some?
            && r.state == t.state.(program := Some(t.state.program.value.(payouts := l.program.value.payouts)),
                                   breaker := r.state.breaker)
            && (l.breaker.state == B.Closed ==> r.state.breaker == t.state.breaker))
  {
    SelectedReleasable(l, tx.now);
    TriggerEachTwin(l, tx, Selected(l, tx.now));
    SuccessesKeepAllowing(l.breaker, |Selected(l, tx.now)|);
  }
}
