/** An open dispute shields exactly its scope. */
module EscrowDisputes {
  import opened Prelude
  import opened EscrowSpec
  import opened EscrowRuns
  import opened EscrowRefinement
  import opened EscrowDrain

  /** The five routes by which funds leave the contract. */
  predicate IsPayout(op: Op) {
    op.DoSingle? || op.DoBatch? || op.DoTrigger? || op.DoRelease?
  }

  /** Between `l` and `m` nothing in this scope has been paid. */
  predicate Unpaid(l: Ledger, m: Ledger, scope: Scope) {
    match scope
    case Everyone => m == l
    case Recipient(who) => who != l.self ==> Balance(m.balances, who) == Balance(l.balances, who)
    case OneSchedule(id) =>
      1 <= id <= |l.schedules| ==> id <= |m.schedules| && m.schedules[id - 1] == l.schedules[id - 1]
  }

  /** What the first `k` entries of a batch give to one recipient. */
  function Share(tos: seq<Address>, amounts: seq<I128>, who: Address, k: nat): int
    requires k <= |tos| == |amounts|
  {
    if k == 0 then 0 else Share(tos, amounts, who, k - 1) + if tos[k - 1] == who then amounts[k - 1] else 0
  }

  lemma {:induction false} TransferAllPays(b: Balances, from: Address, tos: seq<Address>, amounts: seq<I128>,
      k: nat, who: Address)
    requires k <= |tos| == |amounts| && TransferAll(b, from, tos, amounts, k).Some? && who != from
    ensures Balance(TransferAll(b, from, tos, amounts, k).value, who) == Balance(b, who) + Share(tos, amounts, who, k)
  {
    if k == 0 {
    } else {
      TransferAllPays(b, from, tos, amounts, k - 1, who);
      TransferCosts(TransferAll(b, from, tos, amounts, k - 1).value, from, tos[k - 1], amounts[k - 1]);
    }
  }

  /** What the schedules at the given indices owe to one recipient. */
  function Owed(l: Ledger, indices: seq<nat>, who: Address): int
    requires InRange(l, indices)
    decreases |indices|
  {
    if indices == [] then 0
    else
      var s := l.schedules[indices[|indices| - 1]];
      Owed(l, indices[..|indices| - 1], who) + if s.recipient == who then s.amount else 0
  }

  lemma {:induction false} TriggerEachPays(l: Ledger, indices: seq<nat>, now: U64, who: Address)
    requires l.program.Some? && Releasable(l, indices) && TriggerEach(l, indices, now).Commit? && who != l.self
    ensures Balance(TriggerEach(l, indices, now).state.balances, who)
        == Balance(l.balances, who) + Owed(l, indices, who)
    ensures TriggerEach(l, indices, now).state.self == l.self
    decreases |indices|
  {
    if indices == [] {
    } else {
      var n := |indices| - 1;
      TriggerEachPays(l, indices[..n], now, who);
      var m := TriggerEach(l, indices[..n], now).state;
      TriggerEachLeavesOthers(l, indices[..n], now, indices[n]);
      TransferCosts(m.balances, m.self, m.schedules[indices[n]].recipient, m.schedules[indices[n]].amount);
    }
  }

  /** Main result: the bulk routes give every recipient exactly the sum of its own entries. */
  lemma BulkPaysEachRecipient(l: Ledger, tx: Tx, tos: seq<Address>, amounts: seq<I128>, who: Address)
    requires who != l.self
    ensures BatchPayout(l, tx, tos, amounts).Commit? ==>
              |tos| == |amounts|
              && Balance(BatchPayout(l, tx, tos, amounts).state.balances, who)
                 == Balance(l.balances, who) + Share(tos, amounts, who, |tos|)
    ensures Trigger(l, tx).Commit? ==>
              Balance(Trigger(l, tx).state.balances, who)
                  == Balance(l.balances, who) + Owed(l, Selected(l, tx.now), who)
  {
    if BatchPayout(l, tx, tos, amounts).Commit? {
      BatchCommits(l, tx, tos, amounts);
      TransferAllPays(l.balances, l.self, tos, amounts, |tos|, who);
    }
    if Trigger(l, tx).Commit? {
      SelectedReleasable(l, tx.now);
      TriggerEachPays(l, Selected(l, tx.now), tx.now, who);
    }
  }

  lemma {:induction false} NoShareForOthers(tos: seq<Address>, amounts: seq<I128>, who: Address, k: nat)
    requires k <= |tos| == |amounts| && forall i :: 0 <= i < k ==> tos[i] != who
    ensures Share(tos, amounts, who, k) == 0
  {
    if k == 0 {
    } else {
      NoShareForOthers(tos, amounts, who, k - 1);
    }
  }

  lemma {:induction false} NothingOwedToOthers(l: Ledger, indices: seq<nat>, who: Address)
    requires InRange(l, indices) && forall k :: 0 <= k < |indices| ==> l.schedules[indices[k]].recipient != who
    ensures Owed(l, indices, who) == 0
    decreases |indices|
  {
    if indices == [] {
    } else {
      NothingOwedToOthers(l, indices[..|indices| - 1], who);
    }
  }

  lemma BatchSpares(l: Ledger, tx: Tx, tos: seq<Address>, amounts: seq<I128>, scope: Scope)
    requires Inv(l) && IsOpen(l, scope) && BatchPayout(l, tx, tos, amounts).Commit?
    ensures Unpaid(l, BatchPayout(l, tx, tos, amounts).state, scope)
  {
    BatchCommits(l, tx, tos, amounts);
    if scope.Recipient? && scope.who != l.self {
      assert forall i :: 0 <= i < |tos| ==> tos[i] != scope.who;
      TransferAllPays(l.balances, l.self, tos, amounts, |tos|, scope.who);
      NoShareForOthers(tos, amounts, scope.who, |tos|);
    }
  }

  lemma TriggerSpares(l: Ledger, tx: Tx, scope: Scope)
    requires Inv(l) && IsOpen(l, scope) && Trigger(l, tx).Commit?
    ensures Unpaid(l, Trigger(l, tx).state, scope)
  {
    var sel := Selected(l, tx.now);
    SelectedReleasable(l, tx.now);
    match scope
    case Everyone =>
    case Recipient(who) =>
      if who != l.self {
        TriggerEachPays(l, sel, tx.now, who);
        NothingOwedToOthers(l, sel, who);
      }
    case OneSchedule(id) =>
      if 1 <= id <= |l.schedules| {
        assert l.schedules[id - 1].id == id && !Eligible(l, tx.now, id - 1);
        TriggerEachFlags(l, sel, tx.now, id - 1);
      }
  }

  lemma StepSpares(l: Ledger, c: Call, scope: Scope)
    requires Inv(l) && IsOpen(l, scope) && IsPayout(c.op)
    ensures Unpaid(l, Next(l, c), scope)
  {
    if Step(l, c).Commit? {
      match c.op
      case DoSingle(to, amount) => TransferCosts(l.balances, l.self, to, amount);
      case DoBatch(tos, amounts) => BatchSpares(l, c.tx, tos, amounts, scope);
      case DoTrigger => TriggerSpares(l, c.tx, scope);
      case DoRelease(id, _) =>
        var s := l.schedules[IndexOf(l.schedules, id)];
        TransferCosts(l.balances, l.self, s.recipient, s.amount);
    }
  }

  lemma ReleaseKeepsDisputes(l: Ledger, tx: Tx, id: U64, kind: ReleaseType)
    requires ReleaseOne(l, tx, id, kind).Commit?
    ensures ReleaseOne(l, tx, id, kind).state.disputes == l.disputes
  {
  }

  lemma StepKeepsOpen(l: Ledger, c: Call, scope: Scope)
    requires IsOpen(l, scope) && !(c.op.DoCloseDispute? && c.op.scope == scope)
    ensures IsOpen(Next(l, c), scope)
  {
    if Step(l, c).Commit? {
      match c.op
      case DoTrigger => TriggerEachDisputes(l, Selected(l, c.tx.now), c.tx.now);
      case DoBatch(tos, amounts) => BatchCommits(l, c.tx, tos, amounts);
      case DoRelease(id, kind) => ReleaseKeepsDisputes(l, c.tx, id, kind);
      case _ =>
    }
  }

  lemma {:induction false} TriggerEachDisputes(l: Ledger, indices: seq<nat>, now: U64)
    requires l.program.Some? && InRange(l, indices) && TriggerEach(l, indices, now).Commit?
    ensures TriggerEach(l, indices, now).state.disputes == l.disputes
    decreases |indices|
  {
    if indices == [] {
    } else {
      TriggerEachDisputes(l, indices[..|indices| - 1], now);
    }
  }

  lemma {:induction false} StaysOpen(start: Ledger, calls: seq<Call>, j: nat, k: nat, scope: Scope)
    requires j <= k <= |calls| && IsOpen(At(start, calls, j), scope)
    requires forall i :: j <= i < k ==> !(calls[i].op.DoCloseDispute? && calls[i].op.scope == scope)
    ensures IsOpen(At(start, calls, k), scope)
    decreases k - j
  {
    if j == k {
    } else {
      StaysOpen(start, calls, j, k - 1, scope);
      StepKeepsOpen(At(start, calls, k - 1), calls[k - 1], scope);
    }
  }

  /** Main result: from the opening of a dispute until a call that resolves or cancels it, no payout
      route pays its scope, whatever else happens in between: for a global dispute payouts change
      nothing at all, a disputed recipient gets no tokens from the contract, a disputed schedule is
      not released. */
  lemma DisputeShieldsScope(start: Ledger, calls: seq<Call>, j: nat, k: nat, scope: Scope)
    requires Fresh(start) && j <= k < |calls| && IsOpen(At(start, calls, j), scope) && IsPayout(calls[k].op)
    requires forall i :: j <= i < k ==> !(calls[i].op.DoCloseDispute? && calls[i].op.scope == scope)
    ensures Unpaid(At(start, calls, k), At(start, calls, k + 1), scope)
  {
    StaysOpen(start, calls, j, k, scope);
    RunKeepsInv(start, calls, k);
    StepSpares(At(start, calls, k), calls[k], scope);
  }

  /** Opening a dispute adds its scope to the open ones and changes nothing else; the
      administrator can close it at any time, and closing it restores exactly the earlier open ones. */
  lemma ClosingUndoesOpening(l: Ledger, tx: Tx, tx': Tx, scope: Scope, resolved: bool)
    requires OpenDispute(l, tx, scope).Commit? && l.settings.admin.Some? && l.settings.admin.value in tx'.auth
    ensures var m := OpenDispute(l, tx, scope).state; var r := CloseDispute(m, tx', scope, resolved);
      && m == l.(disputes := m.disputes)
      && (forall s :: IsOpen(m, s) <==> IsOpen(l, s) || s == scope)
      && r.Commit? && r.state == l.(disputes := r.state.disputes)
      && (forall s :: IsOpen(r.state, s) <==> IsOpen(l, s))
      && CloseDispute(r.state, tx', scope, resolved) == Abort(NoOpenDispute)
  {
  }

  // ---------------------------------------------------------------------------------------------
  // A scoped dispute stops nothing else
  // ---------------------------------------------------------------------------------------------

  predicate InScope(s: Schedule, scope: Scope) {
    match scope
    case Everyone => true
    case Recipient(who) => s.recipient == who
    case OneSchedule(id) => s.id == id
  }

  function WithDispute(l: Ledger, scope: Scope, record: DisputeRecord): Ledger {
    l.(disputes := l.disputes[scope := record])
  }

  lemma DisputeNarrowsEligible(l: Ledger, scope: Scope, record: DisputeRecord, now: U64, i: nat)
    requires i < |l.schedules| && scope != Everyone && record.status == DisputeOpen
    ensures Eligible(WithDispute(l, scope, record), now, i) <==> Eligible(l, now, i) && !InScope(l.schedules[i], scope)
  {
  }

  predicate Narrower(d: Ledger, l: Ledger, now: U64, k: nat)
    requires k <= |d.schedules| && k <= |l.schedules|
  {
    && |EligibleBelow(d, now, k)| <= |EligibleBelow(l, now, k)|
    && Due(d, EligibleBelow(d, now, k)) <= Due(l, EligibleBelow(l, now, k))
  }

  lemma NarrowerStep(d: Ledger, l: Ledger, now: U64, i: nat)
    requires i < |d.schedules| && i < |l.schedules| && Narrower(d, l, now, i)
    requires Eligible(d, now, i) ==> Eligible(l, now, i)
    requires d.schedules[i] == l.schedules[i] && l.schedules[i].amount > 0
    ensures Narrower(d, l, now, i + 1)
  {
    DueOfNext(l, now, i);
    DueOfNext(d, now, i);
  }

  /** Taking eligible schedules away moves the others forward, and takes no more than their amounts. */
  lemma {:induction false} NarrowedBelow(l: Ledger, scope: Scope, record: DisputeRecord, now: U64, k: nat)
    requires Numbered(l) && k <= |l.schedules| && scope != Everyone && record.status == DisputeOpen
    ensures Narrower(WithDispute(l, scope, record), l, now, k)
  {
    if k == 0 {
    } else {
      NarrowedBelow(l, scope, record, now, k - 1);
      DisputeNarrowsEligible(l, scope, record, now, k - 1);
      NarrowerStep(WithDispute(l, scope, record), l, now, k - 1);
    }
  }

  lemma DueOfNext(l: Ledger, now: U64, i: nat)
    requires i < |l.schedules|
    ensures Due(l, EligibleBelow(l, now, i + 1))
         == Due(l, EligibleBelow(l, now, i)) + if Eligible(l, now, i) then l.schedules[i].amount else 0
    ensures |EligibleBelow(l, now, i + 1)| == |EligibleBelow(l, now, i)| + if Eligible(l, now, i) then 1 else 0
  {
    var before := EligibleBelow(l, now, i);
    if Eligible(l, now, i) {
      assert (before + [i])[..|before|] == before;
      assert EligibleBelow(l, now, i + 1) == before + [i];
    } else {
      assert EligibleBelow(l, now, i + 1) == before;
    }
  }

  lemma OutsideScopeStaysSelected(l: Ledger, scope: Scope, record: DisputeRecord, now: U64, i: nat)
    requires Numbered(l) && i < |l.schedules| && i in Selected(l, now) && !InScope(l.schedules[i], scope)
    requires scope != Everyone && record.status == DisputeOpen
    ensures i in Selected(WithDispute(l, scope, record), now)
  {
    SelectedReleasable(l, now);
    DisputeNarrowsEligible(l, scope, record, now, i);
    SelectedOrLater(l, now, i);
    NarrowedBelow(l, scope, record, now, i);
    SelectedOrLater(WithDispute(l, scope, record), now, i);
  }

  /** If everything eligible is paid for without the dispute, it is with it. */
  lemma NarrowedFits(l: Ledger, scope: Scope, record: DisputeRecord, tx: Tx)
    requires Inv(l) && ReleasesOpen(l, tx) && scope != Everyone && record.status == DisputeOpen
    requires DueFits(l, AllEligible(l, tx.now))
    ensures var d := WithDispute(l, scope, record); DueFits(d, Selected(d, tx.now))
  {
    var d := WithDispute(l, scope, record);
    NarrowedBelow(l, scope, record, tx.now, |l.schedules|);
    DueNonnegative(d, AllEligible(d, tx.now));
    assert Drainable(d, tx);
    SelectionFits(d, tx);
  }

  /** What a scoped dispute does to a trigger call that its caller may make. */
  ghost predicate SparesTheRest(l: Ledger, d: Ledger, scope: Scope, tx: Tx) {
    Trigger(d, tx).Commit? ==>
      forall i :: 0 <= i < |l.schedules| && i in Selected(l, tx.now) && !InScope(l.schedules[i], scope) ==>
        |Trigger(d, tx).state.schedules| == |l.schedules| && Trigger(d, tx).state.schedules[i].released
  }

  /** Main result: under a recipient- or schedule-scoped dispute a trigger call succeeds exactly when
      the schedules it selects then fit the remaining balance, which later ones drawn into the first
      hundred count towards. If it succeeds, it releases every schedule outside the scope that it
      would have selected without the dispute. With at most a hundred eligible schedules, or funds
      for all of them, a call that worked keeps working. */
  lemma ScopedDisputeStopsNothingElse(l: Ledger, tx: Tx, scope: Scope, record: DisputeRecord)
    requires Inv(l) && ReleasesOpen(l, tx) && scope != Everyone && record.status == DisputeOpen
    ensures var d := WithDispute(l, scope, record);
      && (Trigger(d, tx).Commit? <==> DueFits(d, Selected(d, tx.now)))
      && SparesTheRest(l, d, scope, tx)
      && (Trigger(l, tx).Commit? && |AllEligible(l, tx.now)| <= 100 ==> Trigger(d, tx).Commit?)
      && (DueFits(l, AllEligible(l, tx.now)) ==> Trigger(d, tx).Commit?)
  {
    var d := WithDispute(l, scope, record);
    TriggerReleasesSelection(l, tx);
    TriggerReleasesSelection(d, tx);
    if DueFits(l, AllEligible(l, tx.now)) {
      NarrowedFits(l, scope, record, tx);
    }
    SelectedReleasable(l, tx.now);
    forall i | 0 <= i < |l.schedules| && i in Selected(l, tx.now) && !InScope(l.schedules[i], scope)
      ensures i in Selected(d, tx.now)
    {
      OutsideScopeStaysSelected(l, scope, record, tx.now, i);
    }
  }
}
