/** What one trigger call releases, when it can, and how many calls release everything. */
module EscrowDrain {
  import opened Prelude
  import opened EscrowSpec
  import opened EscrowLoops
  import opened EscrowRuns
  import opened EscrowRefinement
  import B = CircuitBreaker

  // ---------------------------------------------------------------------------------------------
  // Funds decide
  // ---------------------------------------------------------------------------------------------

  lemma TriggerAtNeedsOnlyFunds(l: Ledger, i: nat, now: U64)
    requires Funded(l) && l.program.Some? && i < |l.schedules| && l.schedules[i].amount > 0
    ensures TriggerAt(l, i, now).Commit? <==> l.schedules[i].amount <= l.program.value.remaining
    ensures TriggerAt(l, i, now).Commit? ==> Funded(TriggerAt(l, i, now).state)
  {
    if l.schedules[i].amount <= l.program.value.remaining {
      TransferCosts(l.balances, l.self, l.schedules[i].recipient, l.schedules[i].amount);
    }
  }

  /** With the tokens covering the remaining balance, a row of triggered releases goes through exactly
      when its total fits that balance. */
  lemma {:induction false} FundsDecide(l: Ledger, indices: seq<nat>, now: U64)
    requires Funded(l) && Numbered(l) && l.program.Some? && Releasable(l, indices)
    ensures TriggerEach(l, indices, now).Commit? <==> DueFits(l, indices)
    ensures TriggerEach(l, indices, now).Commit? ==> Funded(TriggerEach(l, indices, now).state)
    decreases |indices|
  {
    if indices == [] {
    } else {
      var n := |indices| - 1;
      var front, last := indices[..n], indices[n];
      FundsDecide(l, front, now);
      DueNonnegative(l, front);
      if TriggerEach(l, front, now).Commit? {
        AfterFront(l, front, last, now);
        TriggerAtNeedsOnlyFunds(TriggerEach(l, front, now).state, last, now);
      } else if DueFits(l, indices) {
        assert DueFits(l, front);
      }
    }
  }

  // ---------------------------------------------------------------------------------------------
  // What one call releases
  // ---------------------------------------------------------------------------------------------

  lemma {:induction false} TriggerEachFlags(l: Ledger, indices: seq<nat>, now: U64, i: nat)
    requires l.program.Some? && Releasable(l, indices) && TriggerEach(l, indices, now).Commit? && i < |l.schedules|
    ensures TriggerEach(l, indices, now).state.schedules[i]
         == if i in indices
            then l.schedules[i].(released := true, releasedAt := Some(now), releasedBy := Some(l.self))
            else l.schedules[i]
    ensures SameElsewhere(l, TriggerEach(l, indices, now).state)
    decreases |indices|
  {
    if indices == [] {
    } else {
      var n := |indices| - 1;
      var front, last := indices[..n], indices[n];
      TriggerEachFlags(l, front, now, i);
      TriggerEachLeavesOthers(l, front, now, last);
      TriggerAtFrame(TriggerEach(l, front, now).state, last, now);
      assert indices == front + [last];
    }
  }

  /** Main result: a trigger call that is open to its caller succeeds exactly when the selected
      amounts fit the remaining balance. It then flags exactly the first min(100, n) of the n
      eligible schedules, at the call's time, and takes exactly their amounts out of the balance. */
  lemma TriggerReleasesSelection(l: Ledger, tx: Tx)
    requires Inv(l) && ReleasesOpen(l, tx)
    ensures var sel, r := Selected(l, tx.now), Trigger(l, tx);
      && sel <= AllEligible(l, tx.now)
      && |sel| == Min(100, |AllEligible(l, tx.now)|)
      && (r.Commit? <==> DueFits(l, sel))
      && (r.Commit? ==>
            var m := r.state;
            && m.program.Some? && m.program.value.remaining == l.program.value.remaining - Due(l, sel)
            && |m.schedules| == |l.schedules|
            && forall i :: 0 <= i < |l.schedules| ==>
                 m.schedules[i] == if i in sel
                                   then l.schedules[i].(released := true, releasedAt := Some(tx.now),
                                       releasedBy := Some(l.self))
                                   else l.schedules[i])
  {
    var sel := Selected(l, tx.now);
    SelectedReleasable(l, tx.now);
    FundsDecide(l, sel, tx.now);
    if TriggerEach(l, sel, tx.now).Commit? {
      TriggerEachSpends(l, sel, tx.now);
      forall i | 0 <= i < |l.schedules|
        ensures TriggerEach(l, sel, tx.now).state.schedules[i]
             == if i in sel
                then l.schedules[i].(released := true, releasedAt := Some(tx.now), releasedBy := Some(l.self))
                else l.schedules[i]
      {
        TriggerEachFlags(l, sel, tx.now, i);
      }
    }
  }

  // ---------------------------------------------------------------------------------------------
  // Repeated calls
  // ---------------------------------------------------------------------------------------------

  /** The rest of the eligible indices once the first `n` are taken off. */
  function Rest(s: seq<nat>, n: nat): seq<nat> {
    if |s| <= n then [] else s[n..]
  }

  /** If exactly the first hundred eligible schedules cease to be eligible, the rest remain. */
  lemma {:induction false} EligibleRest(l: Ledger, m: Ledger, now: U64, k: nat)
    requires k <= |l.schedules| == |m.schedules|
    requires forall i :: 0 <= i < |l.schedules| ==>
        (Eligible(m, now, i) <==> Eligible(l, now, i) && i !in Selected(l, now))
    ensures EligibleBelow(m, now, k) == Rest(EligibleBelow(l, now, k), MAX_BATCH_SIZE)
  {
    if k == 0 {
    } else {
      EligibleRest(l, m, now, k - 1);
      if Eligible(l, now, k - 1) {
        var before := EligibleBelow(l, now, k - 1);
        assert EligibleBelow(l, now, k) == before + [k - 1];
        SelectedOrLater(l, now, k - 1);
      }
    }
  }

  /** An eligible schedule is selected exactly when fewer than a hundred eligible ones precede it. */
  lemma SelectedOrLater(l: Ledger, now: U64, i: nat)
    requires i < |l.schedules| && Eligible(l, now, i)
    ensures i in Selected(l, now) <==> |EligibleBelow(l, now, i)| < MAX_BATCH_SIZE
  {
    var before, all := EligibleBelow(l, now, i), AllEligible(l, now);
    assert EligibleBelow(l, now, i + 1) == before + [i];
    EligibleGrows(l, now, i + 1, |l.schedules|);
    assert all[|before|] == i;
    EligibleBelowReleasable(l, now, |l.schedules|);
  }

  lemma {:induction false} DueSplits(l: Ledger, s: seq<nat>, t: seq<nat>)
    requires InRange(l, s) && InRange(l, t)
    ensures InRange(l, s + t) && Due(l, s + t) == Due(l, s) + Due(l, t)
    decreases |t|
  {
    if t == [] {
      assert s + t == s;
    } else {
      var n := |t| - 1;
      assert (s + t)[..|s + t| - 1] == s + t[..n];
      DueSplits(l, s, t[..n]);
    }
  }

  lemma {:induction false} DueUnchanged(l: Ledger, m: Ledger, s: seq<nat>)
    requires InRange(l, s) && |l.schedules| == |m.schedules|
    requires forall i :: 0 <= i < |l.schedules| ==> m.schedules[i].amount == l.schedules[i].amount
    ensures Due(m, s) == Due(l, s)
    decreases |s|
  {
    if s == [] {
    } else {
      DueUnchanged(l, m, s[..|s| - 1]);
    }
  }

  /** Ready to be drained: open to the caller, and enough for everything eligible. */
  ghost predicate Drainable(l: Ledger, tx: Tx) {
    Inv(l) && ReleasesOpen(l, tx) && DueFits(l, AllEligible(l, tx.now))
  }

  lemma SelectionFits(l: Ledger, tx: Tx)
    requires Drainable(l, tx)
    ensures DueFits(l, Selected(l, tx.now))
    ensures var rest := Rest(AllEligible(l, tx.now), MAX_BATCH_SIZE);
      InRange(l, rest) && Due(l, AllEligible(l, tx.now)) == Due(l, Selected(l, tx.now)) + Due(l, rest)
  {
    var all := AllEligible(l, tx.now);
    var sel, rest := Selected(l, tx.now), Rest(all, MAX_BATCH_SIZE);
    assert all == sel + rest;
    DueSplits(l, sel, rest);
    DueNonnegative(l, rest);
    DueNonnegative(l, sel);
  }

  lemma TriggerKeepsOpen(l: Ledger, tx: Tx)
    requires Inv(l) && ReleasesOpen(l, tx) && Trigger(l, tx).Commit?
    ensures var m := Trigger(l, tx).state;
      ReleasesOpen(m, tx) && m.settings == l.settings && m.disputes == l.disputes
  {
    var sel := Selected(l, tx.now);
    SelectedReleasable(l, tx.now);
    TriggerEachKeepsIds(l, sel, tx.now);
    if l.schedules != [] {
      TriggerEachFlags(l, sel, tx.now, 0);
    }
    SuccessesKeepAllowing(l.breaker, 1);
    assert B.Successes(l.breaker, 0) == l.breaker;
  }

  lemma ReleasedAreNoLongerEligible(l: Ledger, tx: Tx, i: nat)
    requires Inv(l) && ReleasesOpen(l, tx) && Trigger(l, tx).Commit? && i < |l.schedules|
    ensures var m := Trigger(l, tx).state;
      && |m.schedules| == |l.schedules| && m.schedules[i].amount == l.schedules[i].amount
      && (Eligible(m, tx.now, i) <==> Eligible(l, tx.now, i) && i !in Selected(l, tx.now))
  {
    TriggerReleasesSelection(l, tx);
    TriggerKeepsOpen(l, tx);
  }

  lemma RestRemains(l: Ledger, tx: Tx)
    requires Inv(l) && ReleasesOpen(l, tx) && Trigger(l, tx).Commit?
    ensures var m, rest := Trigger(l, tx).state, Rest(AllEligible(l, tx.now), MAX_BATCH_SIZE);
      && AllEligible(m, tx.now) == rest && InRange(l, rest) && Due(m, rest) == Due(l, rest)
  {
    var m, rest := Trigger(l, tx).state, Rest(AllEligible(l, tx.now), MAX_BATCH_SIZE);
    TriggerReleasesSelection(l, tx);
    forall i | 0 <= i < |l.schedules|
      ensures Eligible(m, tx.now, i) <==> Eligible(l, tx.now, i) && i !in Selected(l, tx.now)
      ensures m.schedules[i].amount == l.schedules[i].amount
    {
      ReleasedAreNoLongerEligible(l, tx, i);
    }
    EligibleRest(l, m, tx.now, |l.schedules|);
    DueUnchanged(l, m, rest);
  }

  lemma OneCallDrainsAHundred(l: Ledger, tx: Tx)
    requires Drainable(l, tx)
    ensures Trigger(l, tx).Commit? && Drainable(Trigger(l, tx).state, tx)
    ensures AllEligible(Trigger(l, tx).state, tx.now) == Rest(AllEligible(l, tx.now), MAX_BATCH_SIZE)
  {
    SelectionFits(l, tx);
    TriggerReleasesSelection(l, tx);
    TriggerKeepsInv(l, tx);
    TriggerKeepsOpen(l, tx);
    RestRemains(l, tx);
  }

  /** The ledger after `k` trigger calls at the same time. */
  function Repeat(l: Ledger, tx: Tx, k: nat): Outcome<Ledger, Fault> {
    if k == 0 then Commit(l)
    else
      match Repeat(l, tx, k - 1)
      case Abort(e) => Abort(e)
      case Commit(m) => Trigger(m, tx)
  }

  /** Main result: at a fixed time and with enough funds, every repeated call succeeds and takes off
      the next hundred; the n eligible schedules are all released after k calls exactly when
      100 k >= n, that is after n/100 calls rounded up. */
  lemma {:induction false} RepeatedCallsDrain(l: Ledger, tx: Tx, k: nat)
    requires Drainable(l, tx)
    ensures Repeat(l, tx, k).Commit?
    ensures var n, m := |AllEligible(l, tx.now)|, Repeat(l, tx, k).state;
      && Drainable(m, tx)
      && |AllEligible(m, tx.now)| == Max(0, n - 100 * k)
      && (AllEligible(m, tx.now) == [] <==> 100 * k >= n)
  {
    if k == 0 {
    } else {
      RepeatedCallsDrain(l, tx, k - 1);
      OneCallDrainsAHundred(Repeat(l, tx, k - 1).state, tx);
    }
  }
}
