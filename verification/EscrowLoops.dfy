/** How the escrow's loops follow their specifications pass by pass. */
module EscrowLoops {
  import opened Prelude
  import opened EscrowSpec

  /** A total that has failed stays failed, for the same reason. */
  lemma {:induction false} CheckedTotalStops(amounts: seq<I128>, i: nat, n: nat)
    requires i <= n <= |amounts| && CheckedTotal(amounts, i).Abort?
    ensures CheckedTotal(amounts, n) == CheckedTotal(amounts, i)
    decreases n
  {
    if i == n {
    } else {
      CheckedTotalStops(amounts, i, n - 1);
    }
  }

  lemma {:induction false} TransferAllStops(b: Balances, from: Address, tos: seq<Address>, amounts: seq<I128>,
    i: nat, n: nat)
    requires i <= n <= |tos| == |amounts| && TransferAll(b, from, tos, amounts, i).None?
    ensures TransferAll(b, from, tos, amounts, n).None?
    decreases n
  {
    if i == n {
    } else {
      TransferAllStops(b, from, tos, amounts, i, n - 1);
    }
  }

  lemma TriggerEachExtends(l: Ledger, done: seq<nat>, i: nat, now: U64)
    requires l.program.Some? && InRange(l, done) && i < |l.schedules|
    ensures InRange(l, done + [i])
    ensures TriggerEach(l, done, now).Commit? ==>
              TriggerEach(l, done + [i], now) == TriggerAt(TriggerEach(l, done, now).state, i, now)
  {
    assert (done + [i])[..|done|] == done;
  }

  lemma {:induction false} TriggerEachStops(l: Ledger, some: seq<nat>, all: seq<nat>, now: U64)
    requires l.program.Some? && InRange(l, some) && InRange(l, all) && some <= all
    requires TriggerEach(l, some, now).Abort?
    ensures TriggerEach(l, all, now) == TriggerEach(l, some, now)
    decreases |all|
  {
    if some == all {
    } else {
      TriggerEachStops(l, some, all[..|all| - 1], now);
    }
  }

  /** Only the program, the schedules, the history and the tokens differ. */
  predicate SameElsewhere(l: Ledger, m: Ledger) {
    m == l.(program := m.program, schedules := m.schedules, releases := m.releases, balances := m.balances)
  }

  /** The release loop has passed the first `i` schedules and released `count` of them. */
  ghost predicate Progress(l: Ledger, now: U64, i: nat, work: Ledger, count: nat)
    requires l.program.Some? && i <= |l.schedules|
  {
    && count == |EligibleBelow(l, now, i)|
    && TriggerEach(l, EligibleBelow(l, now, i), now) == Commit(work)
    && |work.schedules| == |l.schedules| && work.program.Some?
    && (forall k :: i <= k < |l.schedules| ==> work.schedules[k] == l.schedules[k])
    && SameElsewhere(l, work)
  }

  lemma PassSkips(l: Ledger, now: U64, i: nat, work: Ledger, count: nat)
    requires l.program.Some? && i < |l.schedules| && Progress(l, now, i, work, count)
    requires !Eligible(l, now, i)
    ensures Progress(l, now, i + 1, work, count)
  {
    assert EligibleBelow(l, now, i + 1) == EligibleBelow(l, now, i);
  }

  lemma TriggerAtFrame(l: Ledger, i: nat, now: U64)
    requires l.program.Some? && i < |l.schedules| && TriggerAt(l, i, now).Commit?
    ensures var m := TriggerAt(l, i, now).state;
      SameElsewhere(l, m) && forall k :: 0 <= k < |l.schedules| && k != i ==> m.schedules[k] == l.schedules[k]
  {
  }

  lemma PassReleases(l: Ledger, now: U64, i: nat, work: Ledger, count: nat)
    requires l.program.Some? && i < |l.schedules| && Progress(l, now, i, work, count)
    requires Eligible(l, now, i) && TriggerAt(work, i, now).Commit?
    ensures Progress(l, now, i + 1, TriggerAt(work, i, now).state, count + 1)
  {
    var done := EligibleBelow(l, now, i);
    TriggerEachExtends(l, done, i, now);
    TriggerAtFrame(work, i, now);
    assert EligibleBelow(l, now, i + 1) == done + [i];
  }

  lemma AbortCarries(l: Ledger, done: seq<nat>, i: nat, all: seq<nat>, work: Ledger, now: U64)
    requires l.program.Some? && InRange(l, done) && InRange(l, all) && i < |l.schedules|
    requires work.program.Some? && |work.schedules| == |l.schedules|
    requires TriggerEach(l, done, now) == Commit(work) && done + [i] <= all
    requires TriggerAt(work, i, now).Abort?
    ensures TriggerEach(l, all, now) == TriggerAt(work, i, now)
  {
    TriggerEachExtends(l, done, i, now);
    TriggerEachStops(l, done + [i], all, now);
  }

  lemma NextIsSelected(l: Ledger, now: U64, i: nat)
    requires i < |l.schedules| && Eligible(l, now, i) && |EligibleBelow(l, now, i)| < MAX_BATCH_SIZE
    ensures EligibleBelow(l, now, i) + [i] <= Selected(l, now)
  {
    assert EligibleBelow(l, now, i + 1) == EligibleBelow(l, now, i) + [i];
    SelectedStartsWith(l, now, i + 1);
  }

  lemma PassAborts(l: Ledger, now: U64, i: nat, work: Ledger, count: nat)
    requires l.program.Some? && i < |l.schedules| && Progress(l, now, i, work, count) && count < MAX_BATCH_SIZE
    requires Eligible(l, now, i) && TriggerAt(work, i, now).Abort?
    ensures TriggerEach(l, Selected(l, now), now) == TriggerAt(work, i, now)
    ensures TriggerEach(l, PaidRow(l, Selected(l, now), now), now) == Commit(work)
  {
    NextIsSelected(l, now, i);
    PaidRowStopsHere(l, EligibleBelow(l, now, i), i, Selected(l, now), work, now);
    AbortCarries(l, EligibleBelow(l, now, i), i, Selected(l, now), work, now);
  }

  /** If a row goes through up to here and then fails, what goes through is exactly the row up to here. */
  lemma {:induction false} PaidRowStopsHere(l: Ledger, done: seq<nat>, i: nat, all: seq<nat>, work: Ledger, now: U64)
    requires l.program.Some? && InRange(l, done) && InRange(l, all) && i < |l.schedules|
    requires work.program.Some? && |work.schedules| == |l.schedules|
    requires TriggerEach(l, done, now) == Commit(work) && done + [i] <= all
    requires TriggerAt(work, i, now).Abort?
    ensures PaidRow(l, all, now) == done
    decreases |all|
  {
    AbortCarries(l, done, i, all, work, now);
    if all == done + [i] {
      assert all[..|all| - 1] == done;
    } else {
      PaidRowStopsHere(l, done, i, all[..|all| - 1], work, now);
    }
  }

  /** One more schedule passed: skipped, released, or the reason the whole call aborts. */
  lemma PassOver(l: Ledger, now: U64, i: nat, work: Ledger, count: nat)
    requires l.program.Some? && i < |l.schedules| && Progress(l, now, i, work, count) && count < MAX_BATCH_SIZE
    ensures Eligible(work, now, i) == Eligible(l, now, i)
    ensures !Eligible(l, now, i) ==> Progress(l, now, i + 1, work, count)
    ensures Eligible(l, now, i) && TriggerAt(work, i, now).Commit? ==>
              Progress(l, now, i + 1, TriggerAt(work, i, now).state, count + 1)
    ensures Eligible(l, now, i) && TriggerAt(work, i, now).Abort? ==>
              && TriggerEach(l, Selected(l, now), now) == TriggerAt(work, i, now)
              && TriggerEach(l, PaidRow(l, Selected(l, now), now), now) == Commit(work)
  {
    assert Eligible(work, now, i) == Eligible(l, now, i);
    if !Eligible(l, now, i) {
      PassSkips(l, now, i, work, count);
    } else if TriggerAt(work, i, now).Commit? {
      PassReleases(l, now, i, work, count);
    } else {
      PassAborts(l, now, i, work, count);
    }
  }

  lemma {:induction false} EligibleGrows(l: Ledger, now: U64, i: nat, k: nat)
    requires i <= k <= |l.schedules|
    ensures EligibleBelow(l, now, i) <= EligibleBelow(l, now, k)
    decreases k
  {
    if i == k {
    } else {
      EligibleGrows(l, now, i, k - 1);
    }
  }

  /** While no more than a hundred have been found, they are the start of the selection; and they
      are all of it once the hundred are full or the schedules are used up. */
  lemma SelectedStartsWith(l: Ledger, now: U64, i: nat)
    requires i <= |l.schedules| && |EligibleBelow(l, now, i)| <= MAX_BATCH_SIZE
    ensures EligibleBelow(l, now, i) <= Selected(l, now)
    ensures i == |l.schedules| || |EligibleBelow(l, now, i)| == MAX_BATCH_SIZE ==>
        EligibleBelow(l, now, i) == Selected(l, now)
  {
    EligibleGrows(l, now, i, |l.schedules|);
  }
}
