/** How many large-payout alerts one batch can raise. */
module EscrowAlerts {
  import opened Prelude
  import opened EscrowSpec
  import opened EscrowRuns
  import opened EscrowRefinement

  /** Rust's `total_funds / 10` for the nonnegative totals that occur. */
  function Threshold(total: nat): nat {
    total / 10
  }

  /** How many of the first `k` amounts reach the threshold. */
  function Alerts(amounts: seq<I128>, threshold: int, k: nat): nat
    requires k <= |amounts|
  {
    if k == 0 then 0 else Alerts(amounts, threshold, k - 1) + if amounts[k - 1] >= threshold then 1 else 0
  }

  lemma {:induction false} AlertsCost(amounts: seq<I128>, threshold: nat, k: nat)
    requires k <= |amounts| && forall i :: 0 <= i < k ==> amounts[i] > 0
    ensures Alerts(amounts, threshold, k) <= k
    ensures Alerts(amounts, threshold, k) * threshold <= Sum(amounts, k)
  {
    if k == 0 {
    } else {
      AlertsCost(amounts, threshold, k - 1);
    }
  }

  /** Totals for which a tenth, rounded down, is at least as large as what rounding drops. */
  predicate Bounded(total: nat) {
    total < 10 || total % 10 < total / 10
  }

  lemma TenAtMost(q: nat, r: nat, count: nat)
    requires r < q && count * q <= 10 * q + r
    ensures count <= 10
  {
    assert (count - 10) * q <= r;
  }

  /** Main result: a committed batch in a reachable ledger raises at most ten alerts if its program's
      total passes the test; every total from 100 up does. */
  lemma AtMostTenAlerts(start: Ledger, calls: seq<Call>, k: nat, tx: Tx, tos: seq<Address>, amounts: seq<I128>)
    requires Fresh(start) && k <= |calls| && BatchPayout(At(start, calls, k), tx, tos, amounts).Commit?
    ensures var l := At(start, calls, k);
      && l.program.Some? && l.program.value.totalFunds >= 0
      && var total := l.program.value.totalFunds;
      && (Bounded(total) ==> Alerts(amounts, Threshold(total), |amounts|) <= 10)
      && (total >= 100 ==> Bounded(total))
  {
    RunKeepsInv(start, calls, k);
    var l := At(start, calls, k);
    BatchCommits(l, tx, tos, amounts);
    CheckedTotalIsSum(amounts, |amounts|);
    SumPositive(amounts, |amounts|);
    var total := l.program.value.totalFunds;
    var q := Threshold(total);
    AlertsCost(amounts, q, |amounts|);
    if Bounded(total) && total >= 10 {
      TenAtMost(q, total % 10, Alerts(amounts, q, |amounts|));
    }
  }

  lemma {:induction false} EvenBatch(q: I128, n: nat, k: nat)
    requires q > 0 && k <= n
    ensures var amounts := seq(n, _ => q);
      Sum(amounts, k) == k * q && Alerts(amounts, q, k) == k
  {
    if k == 0 {
    } else {
      EvenBatch(q, n, k - 1);
    }
  }

  /** The test on the total decides about a program of which nothing has been paid yet: ten bounds all
      batches that the whole total can pay exactly when the total passes it. */
  lemma TestOfTotalIsExact(total: nat)
    requires total <= I128_MAX
    ensures Bounded(total) <==>
            forall amounts: seq<I128> ::
              (forall i :: 0 <= i < |amounts| ==> amounts[i] > 0) && |amounts| <= MAX_BATCH_SIZE
                  && Sum(amounts, |amounts|) <= total
              ==> Alerts(amounts, Threshold(total), |amounts|) <= 10
  {
    var q := Threshold(total);
    if Bounded(total) {
      forall amounts: seq<I128> | (forall i :: 0 <= i < |amounts| ==> amounts[i] > 0) && |amounts| <= MAX_BATCH_SIZE
                                  && Sum(amounts, |amounts|) <= total
        ensures Alerts(amounts, q, |amounts|) <= 10
      {
        AlertsCost(amounts, q, |amounts|);
        SumPositive(amounts, |amounts|);
        if total >= 10 {
          TenAtMost(q, total % 10, Alerts(amounts, q, |amounts|));
        }
      }
    } else {
      var amounts: seq<I128> := seq(11, _ => q);
      EvenBatch(q, 11, 11);
      assert Sum(amounts, |amounts|) <= total;
      assert Alerts(amounts, q, |amounts|) == 11;
    }
  }

  // ---------------------------------------------------------------------------------------------
  // Exactly when ten bounds the alerts of every batch the ledger accepts
  // ---------------------------------------------------------------------------------------------

  lemma {:induction false} FundedTransfers(b: Balances, from: Address, tos: seq<Address>, amounts: seq<I128>, k: nat)
    requires k <= |tos| == |amounts| && forall i :: 0 <= i < k ==> amounts[i] > 0
    requires Balance(b, from) >= Sum(amounts, k)
    ensures TransferAll(b, from, tos, amounts, k).Some?
  {
    if k == 0 {
    } else {
      FundedTransfers(b, from, tos, amounts, k - 1);
      TransferAllCosts(b, from, tos, amounts, k - 1);
    }
  }

  /** In a funded ledger what a batch needs beyond its guards is that the sum fits. */
  lemma FundedBatch(l: Ledger, tx: Tx, tos: seq<Address>, amounts: seq<I128>)
    requires Funded(l) && PayoutsOpen(l, tx) && 1 <= |tos| == |amounts| <= MAX_BATCH_SIZE
    requires forall i :: 0 <= i < |tos| ==> MayBePaid(l, tos[i], amounts[i])
    ensures BatchPayout(l, tx, tos, amounts).Commit? <==> Sum(amounts, |amounts|) <= l.program.value.remaining
  {
    BatchExact(l, tx, tos, amounts);
    if Sum(amounts, |amounts|) <= l.program.value.remaining {
      assert forall i :: 0 <= i < |tos| ==> MayBePaid(l, tos[i], amounts[i]) && amounts[i] > 0;
      FundedTransfers(l.balances, l.self, tos, amounts, |tos|);
    }
  }

  /** Every batch that `tx` may make raises at most ten alerts. */
  ghost predicate AlwaysAtMostTen(l: Ledger, tx: Tx)
    requires l.program.Some? && l.program.value.totalFunds >= 0
  {
    forall tos, amounts :: BatchPayout(l, tx, tos, amounts).Commit? ==>
      Alerts(amounts, Threshold(l.program.value.totalFunds), |amounts|) <= 10
  }

  lemma FewAlerts(l: Ledger, tx: Tx, tos: seq<Address>, amounts: seq<I128>)
    requires Funded(l) && BatchPayout(l, tx, tos, amounts).Commit?
    ensures l.program.Some?
    ensures var p := l.program.value; var q := Threshold(p.totalFunds);
      p.totalFunds < 10 || p.remaining < 11 * q ==> Alerts(amounts, q, |amounts|) <= 10
  {
    BatchCommits(l, tx, tos, amounts);
    CheckedTotalIsSum(amounts, |amounts|);
    SumPositive(amounts, |amounts|);
    var q := Threshold(l.program.value.totalFunds);
    AlertsCost(amounts, q, |amounts|);
    if l.program.value.totalFunds >= 10 && l.program.value.remaining < 11 * q {
      TenAtMost(q, q - 1, Alerts(amounts, q, |amounts|));
    }
  }

  /** Eleven payouts of the threshold itself to one recipient. */
  lemma ElevenAlerts(l: Ledger, tx: Tx, to: Address)
    requires Funded(l) && PayoutsOpen(l, tx) && MayBePaid(l, to, 1)
    requires l.program.value.totalFunds >= 10
    requires 11 * Threshold(l.program.value.totalFunds) <= l.program.value.remaining
    ensures var tos, amounts := seq(11, _ => to), seq(11, _ => Threshold(l.program.value.totalFunds));
      && BatchPayout(l, tx, tos, amounts).Commit?
      && Alerts(amounts, Threshold(l.program.value.totalFunds), |amounts|) == 11
  {
    var q: I128 := Threshold(l.program.value.totalFunds);
    var tos, amounts: seq<I128> := seq(11, _ => to), seq(11, _ => q);
    EvenBatch(q, 11, 11);
    assert forall i :: 0 <= i < |tos| ==> MayBePaid(l, tos[i], amounts[i]);
    FundedBatch(l, tx, tos, amounts);
  }

  /** Main result: in every reachable ledger in which the caller may pay somebody, ten bounds the
      alerts of all batches the ledger accepts if and only if the total is below ten or fewer than
      eleven times the threshold remains. */
  lemma TenIsExact(start: Ledger, calls: seq<Call>, k: nat, tx: Tx, to: Address)
    requires Fresh(start) && k <= |calls|
    requires PayoutsOpen(At(start, calls, k), tx) && MayBePaid(At(start, calls, k), to, 1)
    ensures var l := At(start, calls, k); var p := l.program.value;
      && p.totalFunds >= 0
      && (AlwaysAtMostTen(l, tx) <==> p.totalFunds < 10 || p.remaining < 11 * (p.totalFunds / 10))
  {
    RunKeepsInv(start, calls, k);
    TenIsExactFor(At(start, calls, k), tx, to);
  }

  lemma TenIsExactFor(l: Ledger, tx: Tx, to: Address)
    requires Funded(l) && PayoutsOpen(l, tx) && MayBePaid(l, to, 1)
    ensures var p := l.program.value;
      AlwaysAtMostTen(l, tx) <==> p.totalFunds < 10 || p.remaining < 11 * Threshold(p.totalFunds)
  {
    var p := l.program.value;
    if p.totalFunds < 10 || p.remaining < 11 * Threshold(p.totalFunds) {
      forall tos, amounts | BatchPayout(l, tx, tos, amounts).Commit?
        ensures Alerts(amounts, Threshold(p.totalFunds), |amounts|) <= 10
      {
        FewAlerts(l, tx, tos, amounts);
      }
    } else {
      ElevenAlerts(l, tx, to);
    }
  }
}
