/** What enforcing the whitelist means: nobody outside it is paid or scheduled, nobody inside it is
    refused on its account, and without enforcement nobody is. */
module EscrowWhitelist {
  import opened Prelude
  import opened EscrowSpec
  import opened EscrowRuns
  import opened EscrowDrain
  import opened EscrowDisputes

  /** The call names `a` as the one to be paid, now or by a schedule. */
  predicate Names(l: Ledger, c: Call, a: Address) {
    match c.op
    case DoSingle(to, _) => a == to
    case DoBatch(tos, _) => a in tos
    case DoCreate(_, _, recipient) => a == recipient
    case DoRelease(id, _) => 1 <= id <= |l.schedules| && l.schedules[id - 1].recipient == a
    case _ => false
  }

  // ---------------------------------------------------------------------------------------------
  // Nobody outside is paid
  // ---------------------------------------------------------------------------------------------

  /** From `l` to `m` nothing was paid to `a` and none of its schedules released. */
  predicate LeftOut(l: Ledger, m: Ledger, a: Address) {
    && (a != l.self ==> Balance(m.balances, a) == Balance(l.balances, a))
    && |l.schedules| <= |m.schedules|
    && forall i :: 0 <= i < |l.schedules| && l.schedules[i].recipient == a ==> m.schedules[i] == l.schedules[i]
  }

  lemma SingleLeavesOut(l: Ledger, tx: Tx, to: Address, amount: I128, a: Address)
    requires l.settings.whitelistEnforced && a !in l.settings.whitelist && SinglePayout(l, tx, to, amount).Commit?
    ensures LeftOut(l, SinglePayout(l, tx, to, amount).state, a)
  {
    TransferCosts(l.balances, l.self, to, amount);
  }

  lemma BatchLeavesOut(l: Ledger, tx: Tx, tos: seq<Address>, amounts: seq<I128>, a: Address)
    requires l.settings.whitelistEnforced && a !in l.settings.whitelist && BatchPayout(l, tx, tos, amounts).Commit?
    ensures LeftOut(l, BatchPayout(l, tx, tos, amounts).state, a)
  {
    BatchCommits(l, tx, tos, amounts);
    assert forall i :: 0 <= i < |tos| ==> tos[i] != a;
    if a != l.self {
      TransferAllPays(l.balances, l.self, tos, amounts, |tos|, a);
      NoShareForOthers(tos, amounts, a, |tos|);
    }
  }

  lemma RowLeavesOut(l: Ledger, row: seq<nat>, now: U64, a: Address)
    requires l.program.Some? && Releasable(l, row) && TriggerEach(l, row, now).Commit?
    requires forall j :: 0 <= j < |row| ==> l.schedules[row[j]].recipient != a
    ensures LeftOut(l, TriggerEach(l, row, now).state, a)
  {
    if a != l.self {
      TriggerEachPays(l, row, now, a);
      NothingOwedToOthers(l, row, a);
    }
    forall i | 0 <= i < |l.schedules| && l.schedules[i].recipient == a
      ensures TriggerEach(l, row, now).state.schedules[i] == l.schedules[i]
    {
      TriggerEachFlags(l, row, now, i);
    }
  }

  lemma TriggerLeavesOut(l: Ledger, tx: Tx, a: Address)
    requires l.settings.whitelistEnforced && a !in l.settings.whitelist && Trigger(l, tx).Commit?
    ensures LeftOut(l, Trigger(l, tx).state, a)
  {
    SelectedReleasable(l, tx.now);
    RowLeavesOut(l, Selected(l, tx.now), tx.now, a);
  }

  lemma ReleaseLeavesOut(l: Ledger, tx: Tx, id: U64, kind: ReleaseType, a: Address)
    requires l.settings.whitelistEnforced && a !in l.settings.whitelist && ReleaseOne(l, tx, id, kind).Commit?
    ensures LeftOut(l, ReleaseOne(l, tx, id, kind).state, a)
  {
    var s := l.schedules[IndexOf(l.schedules, id)];
    TransferCosts(l.balances, l.self, s.recipient, s.amount);
  }

  lemma CallLeavesOut(l: Ledger, c: Call, a: Address)
    requires l.settings.whitelistEnforced && a !in l.settings.whitelist && IsPayout(c.op) && Step(l, c).Commit?
    ensures LeftOut(l, Next(l, c), a)
  {
    match c.op
    case DoSingle(to, amount) => SingleLeavesOut(l, c.tx, to, amount, a);
    case DoBatch(tos, amounts) => BatchLeavesOut(l, c.tx, tos, amounts, a);
    case DoTrigger => TriggerLeavesOut(l, c.tx, a);
    case DoRelease(id, kind) => ReleaseLeavesOut(l, c.tx, id, kind, a);
  }

  // ---------------------------------------------------------------------------------------------
  // Who is refused
  // ---------------------------------------------------------------------------------------------

  lemma {:induction false} RowNeverRefused(l: Ledger, row: seq<nat>, now: U64)
    requires l.program.Some? && InRange(l, row)
    ensures TriggerEach(l, row, now) != Abort(NotWhitelisted)
    decreases |row|
  {
    if row == [] {
    } else {
      RowNeverRefused(l, row[..|row| - 1], now);
    }
  }

  lemma {:induction false} TotalNeverRefused(amounts: seq<I128>, k: nat)
    requires k <= |amounts|
    ensures CheckedTotal(amounts, k) != Abort(NotWhitelisted)
  {
    if k == 0 {
    } else {
      TotalNeverRefused(amounts, k - 1);
    }
  }

  lemma BatchRefused(l: Ledger, tx: Tx, tos: seq<Address>, amounts: seq<I128>)
    requires BatchPayout(l, tx, tos, amounts) == Abort(NotWhitelisted)
    ensures l.settings.whitelistEnforced && exists a :: a in tos && a !in l.settings.whitelist
  {
    TotalNeverRefused(amounts, |amounts|);
    var i :| 0 <= i < |tos| && !Payable(l, tos[i]);
    assert tos[i] in tos;
  }

  lemma ReleaseRefused(l: Ledger, tx: Tx, id: U64, kind: ReleaseType)
    requires Numbered(l) && ReleaseOne(l, tx, id, kind) == Abort(NotWhitelisted)
    ensures l.settings.whitelistEnforced && 1 <= id <= |l.schedules|
    ensures l.schedules[id - 1].recipient !in l.settings.whitelist
  {
    assert l.schedules[IndexOf(l.schedules, id)].id == IndexOf(l.schedules, id) + 1;
  }

  lemma OthersNeverRefused(l: Ledger, c: Call)
    requires !c.op.DoSingle? && !c.op.DoBatch? && !c.op.DoTrigger? && !c.op.DoRelease? && !c.op.DoCreate?
    ensures Step(l, c) != Abort(NotWhitelisted)
  {
  }

  lemma RefusedCall(l: Ledger, c: Call)
    requires Numbered(l) && Step(l, c) == Abort(NotWhitelisted)
    ensures l.settings.whitelistEnforced && exists a :: Names(l, c, a) && a !in l.settings.whitelist
  {
    match c.op
    case DoSingle(to, _) => assert Names(l, c, to);
    case DoCreate(_, _, recipient) => assert Names(l, c, recipient);
    case DoBatch(tos, amounts) =>
      BatchRefused(l, c.tx, tos, amounts);
      var a :| a in tos && a !in l.settings.whitelist;
      assert Names(l, c, a);
    case DoRelease(id, kind) =>
      ReleaseRefused(l, c.tx, id, kind);
      assert Names(l, c, l.schedules[id - 1].recipient);
    case DoTrigger => RowNeverRefused(l, Selected(l, c.tx.now), c.tx.now);
    case _ => OthersNeverRefused(l, c);
  }

  lemma BatchNamesInsiders(l: Ledger, tx: Tx, tos: seq<Address>, amounts: seq<I128>, a: Address)
    requires l.settings.whitelistEnforced && BatchPayout(l, tx, tos, amounts).Commit? && a in tos
    ensures a in l.settings.whitelist
  {
    var i :| 0 <= i < |tos| && tos[i] == a;
    assert Payable(l, tos[i]);
  }

  lemma ReleaseNamesInsiders(l: Ledger, tx: Tx, id: U64, kind: ReleaseType)
    requires Numbered(l) && l.settings.whitelistEnforced && ReleaseOne(l, tx, id, kind).Commit?
    ensures 1 <= id <= |l.schedules| && l.schedules[id - 1].recipient in l.settings.whitelist
  {
    assert l.schedules[IndexOf(l.schedules, id)].id == IndexOf(l.schedules, id) + 1;
  }

  lemma CommittedNamesInsiders(l: Ledger, c: Call, a: Address)
    requires Numbered(l) && l.settings.whitelistEnforced && Step(l, c).Commit? && Names(l, c, a)
    ensures a in l.settings.whitelist
  {
    match c.op
    case DoSingle(_, _) =>
    case DoCreate(_, _, _) =>
    case DoBatch(tos, amounts) => BatchNamesInsiders(l, c.tx, tos, amounts, a);
    case DoRelease(id, kind) => ReleaseNamesInsiders(l, c.tx, id, kind);
  }

  /** Main result: in every reachable ledger with the whitelist enforced, no payout route gives tokens
      to an address outside it or releases a schedule of such an address, and no call that names one
      to be paid, or creates a schedule for one, goes through. */
  lemma OutsidersAreLeftOut(start: Ledger, calls: seq<Call>, k: nat, a: Address)
    requires Fresh(start) && k < |calls|
    requires At(start, calls, k).settings.whitelistEnforced && a !in At(start, calls, k).settings.whitelist
    ensures IsPayout(calls[k].op) ==> LeftOut(At(start, calls, k), At(start, calls, k + 1), a)
    ensures Names(At(start, calls, k), calls[k], a) ==> Step(At(start, calls, k), calls[k]).Abort?
  {
    RunKeepsInv(start, calls, k);
    var l, c := At(start, calls, k), calls[k];
    if Step(l, c).Commit? {
      if IsPayout(c.op) {
        CallLeavesOut(l, c, a);
      }
      if Names(l, c, a) {
        CommittedNamesInsiders(l, c, a);
      }
    }
  }

  /** Main result: a call is refused on account of the whitelist only while it is enforced and only if
      the call names somebody outside it; so without enforcement nobody is refused. */
  lemma OnlyOutsidersAreRefused(start: Ledger, calls: seq<Call>, k: nat, c: Call)
    requires Fresh(start) && k <= |calls| && Step(At(start, calls, k), c) == Abort(NotWhitelisted)
    ensures var l := At(start, calls, k);
      l.settings.whitelistEnforced && exists a :: Names(l, c, a) && a !in l.settings.whitelist
  {
    RunKeepsInv(start, calls, k);
    RefusedCall(At(start, calls, k), c);
  }
}
