/** Runs of the escrow and the invariant every run keeps: funding, numbering, bookkeeping. */
module EscrowRuns {
  import opened Prelude
  import opened EscrowSpec
  import B = CircuitBreaker

  /** Every transaction that can move funds or change what the fund movements depend on. The
      administrators' setters are taken together as one that may set anything. */
  datatype Op =
    | DoInitialize(programId: string, payoutKey: Address, token: Address)
    | DoLock(from: Address, amount: I128)
    | DoSingle(to: Address, amount: I128)
    | DoBatch(tos: seq<Address>, amounts: seq<I128>)
    | DoCreate(amount: I128, releaseTime: U64, recipient: Address)
    | DoTrigger
    | DoRelease(id: U64, kind: ReleaseType)
    | DoOpenDispute(scope: Scope)
    | DoCloseDispute(scope: Scope, resolved: bool)
    | DoReconfigure(settings: Settings, rateExempt: set<Address>)
    | DoSetBreakerAdmin(admin: Address, holder: Option<Address>)
    | DoForceOpenBreaker(caller: Address)
    | DoResetBreaker(caller: Address)
    | DoConfigureBreaker(caller: Address, cfg: B.Config)
    | DoOutsideTransfer(from: Address, to: Address, amount: I128)

  datatype Call = Call(tx: Tx, op: Op)

  function Step(l: Ledger, c: Call): Outcome<Ledger, Fault> {
    match c.op
    case DoInitialize(programId, payoutKey, token) => Initialize(l, programId, payoutKey, token)
    case DoLock(from, amount) => Lock(l, c.tx, from, amount)
    case DoSingle(to, amount) => SinglePayout(l, c.tx, to, amount)
    case DoBatch(tos, amounts) => BatchPayout(l, c.tx, tos, amounts)
    case DoCreate(amount, releaseTime, recipient) => CreateSchedule(l, c.tx, amount, releaseTime, recipient)
    case DoTrigger => Trigger(l, c.tx)
    case DoRelease(id, kind) => ReleaseOne(l, c.tx, id, kind)
    case DoOpenDispute(scope) => OpenDispute(l, c.tx, scope)
    case DoCloseDispute(scope, resolved) => CloseDispute(l, c.tx, scope, resolved)
    case DoReconfigure(settings, rateExempt) => Commit(l.(settings := settings, rateExempt := rateExempt))
    case DoSetBreakerAdmin(admin, holder) => SetBreakerAdmin(l, c.tx, admin, holder)
    case DoForceOpenBreaker(caller) => ForceOpenBreaker(l, c.tx, caller)
    case DoResetBreaker(caller) => ResetBreaker(l, c.tx, caller)
    case DoConfigureBreaker(caller, cfg) => ConfigureBreaker(l, c.tx, caller, cfg)
    case DoOutsideTransfer(from, to, amount) => OutsideTransfer(l, from, to, amount)
  }

  /** An aborted transaction leaves no trace. */
  function Next(l: Ledger, c: Call): Ledger {
    match Step(l, c)
    case Commit(m) => m
    case Abort(_) => l
  }

  /** The ledger after the first `k` transactions of a run. */
  function At(start: Ledger, calls: seq<Call>, k: nat): Ledger
    requires k <= |calls|
  {
    if k == 0 then start else Next(At(start, calls, k - 1), calls[k - 1])
  }

  // ---------------------------------------------------------------------------------------------
  // The invariant
  // ---------------------------------------------------------------------------------------------

  /** The contract holds at least what it believes it holds. */
  predicate Funded(l: Ledger) {
    l.program.Some? ==>
      && Balance(l.balances, l.self) >= l.program.value.remaining
      && 0 <= l.program.value.totalFunds
      && l.program.value.remaining <= l.program.value.totalFunds
  }

  /** The schedule at index i has id i+1 and a positive amount. */
  predicate Numbered(l: Ledger) {
    && l.nextId == |l.schedules| + 1
    && (l.program.None? ==> l.schedules == [] && l.releases == [])
    && forall i :: 0 <= i < |l.schedules| ==> l.schedules[i].id == i + 1 && l.schedules[i].amount > 0
  }

  predicate Matches(r: Release, s: Schedule) {
    s.released && r.scheduleId == s.id && r.recipient == s.recipient && r.amount == s.amount
        && s.releasedAt == Some(r.releasedAt)
  }

  /** Release-history entries and released schedules are in one-to-one correspondence. */
  ghost predicate Booked(schedules: seq<Schedule>, releases: seq<Release>) {
    && (forall j :: 0 <= j < |releases| ==>
          1 <= releases[j].scheduleId <= |schedules| && Matches(releases[j], schedules[releases[j].scheduleId - 1]))
    && (forall j, k :: 0 <= j < k < |releases| ==> releases[j].scheduleId != releases[k].scheduleId)
    && (forall i :: 0 <= i < |schedules| && schedules[i].released ==> HasEntry(releases, i + 1))
  }

  ghost predicate HasEntry(releases: seq<Release>, id: int) {
    exists j :: 0 <= j < |releases| && releases[j].scheduleId == id
  }

  /** No failure is on record, and it would take at least one to open the circuit. */
  predicate Calm(b: B.Breaker) {
    b.failures == 0 && b.log == [] && b.cfg.failureThreshold >= 1
  }

  ghost predicate Inv(l: Ledger) {
    Funded(l) && Numbered(l) && Booked(l.schedules, l.releases) && Calm(l.breaker)
  }

  /** The amounts of the schedules flagged released. */
  function ReleasedTotal(schedules: seq<Schedule>): nat
    requires forall i :: 0 <= i < |schedules| ==> schedules[i].amount > 0
  {
    if schedules == [] then 0
    else
      var s := schedules[|schedules| - 1];
      ReleasedTotal(schedules[..|schedules| - 1]) + if s.released then s.amount else 0
  }

  function Sum(amounts: seq<I128>, k: nat): int
    requires k <= |amounts|
  {
    if k == 0 then 0 else Sum(amounts, k - 1) + amounts[k - 1]
  }

  /** What has left the remaining balance without being a released schedule. */
  function SpentDirectly(l: Ledger): int
    requires Numbered(l) && l.program.Some?
  {
    l.program.value.totalFunds - l.program.value.remaining - ReleasedTotal(l.schedules)
  }

  // ---------------------------------------------------------------------------------------------
  // Transfers
  // ---------------------------------------------------------------------------------------------

  /** A transfer out of an account costs it at most the amount, and exactly that if it goes elsewhere. */
  lemma TransferCosts(b: Balances, from: Address, to: Address, amount: int)
    requires Transfer(b, from, to, amount).Some?
    ensures var b' := Transfer(b, from, to, amount).value;
      && Balance(b', from) == Balance(b, from) - (if from == to then 0 else amount)
      && (from != to ==> Balance(b', to) == Balance(b, to) + amount)
      && forall a :: a != from && a != to ==> Balance(b', a) == Balance(b, a)
  {
  }

  lemma {:induction false} CheckedTotalIsSum(amounts: seq<I128>, k: nat)
    requires k <= |amounts|
    ensures CheckedTotal(amounts, k).Commit? ==>
              CheckedTotal(amounts, k).state == Sum(amounts, k) && forall i :: 0 <= i < k ==> amounts[i] > 0
    ensures (forall i :: 0 <= i < k ==> amounts[i] > 0) && Sum(amounts, k) <= I128_MAX ==>
        CheckedTotal(amounts, k).Commit?
  {
    if k == 0 {
    } else {
      CheckedTotalIsSum(amounts, k - 1);
    }
  }

  lemma {:induction false} TransferAllCosts(b: Balances, from: Address, tos: seq<Address>, amounts: seq<I128>, k: nat)
    requires k <= |tos| == |amounts| && TransferAll(b, from, tos, amounts, k).Some?
    ensures var b' := TransferAll(b, from, tos, amounts, k).value;
      && Balance(b', from) >= Balance(b, from) - Sum(amounts, k)
      && ((forall i :: 0 <= i < k ==> tos[i] != from) ==> Balance(b', from) == Balance(b, from) - Sum(amounts, k))
  {
    if k == 0 {
    } else {
      TransferAllCosts(b, from, tos, amounts, k - 1);
      TransferCosts(TransferAll(b, from, tos, amounts, k - 1).value, from, tos[k - 1], amounts[k - 1]);
    }
  }

  // ---------------------------------------------------------------------------------------------
  // One release
  // ---------------------------------------------------------------------------------------------

  lemma {:induction false} FlaggingAddsAmount(schedules: seq<Schedule>, i: nat, s: Schedule)
    requires forall k :: 0 <= k < |schedules| ==> schedules[k].amount > 0
    requires i < |schedules| && !schedules[i].released && s.released && s.amount == schedules[i].amount
    ensures ReleasedTotal(schedules[i := s]) == ReleasedTotal(schedules) + s.amount
  {
    var n := |schedules| - 1;
    if i < n {
      assert schedules[i := s][..n] == schedules[..n][i := s];
      FlaggingAddsAmount(schedules[..n], i, s);
    } else {
      assert schedules[i := s][..n] == schedules[..n];
    }
  }

  lemma FlaggingKeepsBooks(schedules: seq<Schedule>, releases: seq<Release>, i: nat, s: Schedule, r: Release)
    requires Booked(schedules, releases) && i < |schedules| && !schedules[i].released
    requires forall k :: 0 <= k < |schedules| ==> schedules[k].id == k + 1
    requires s.id == i + 1 && Matches(r, s)
    ensures Booked(schedules[i := s], releases + [r])
  {
    var schedules', releases' := schedules[i := s], releases + [r];
    forall k | 0 <= k < |schedules'| && schedules'[k].released
      ensures HasEntry(releases', k + 1)
    {
      if k == i {
        assert releases'[|releases|].scheduleId == k + 1;
      } else {
        assert HasEntry(releases, k + 1);
        var j :| 0 <= j < |releases| && releases[j].scheduleId == k + 1;
        assert releases'[j].scheduleId == k + 1;
      }
    }
  }

  /** The common core of the three release routes keeps the invariant and the direct total. */
  lemma ReleaseAtKeepsInv(l: Ledger, i: nat, now: U64, releaser: Address, kind: ReleaseType)
    requires Inv(l) && l.program.Some? && i < |l.schedules| && !l.schedules[i].released
    requires ReleaseAt(l, i, now, releaser, kind).Commit?
    ensures var m := ReleaseAt(l, i, now, releaser, kind).state;
      Inv(m) && SpentDirectly(m) == SpentDirectly(l)
  {
    var m := ReleaseAt(l, i, now, releaser, kind).state;
    TransferCosts(l.balances, l.self, l.schedules[i].recipient, l.schedules[i].amount);
    FlaggingKeepsBooks(l.schedules, l.releases, i, m.schedules[i], m.releases[|l.releases|]);
    FlaggingAddsAmount(l.schedules, i, m.schedules[i]);
  }

  lemma TriggerAtKeepsInv(l: Ledger, i: nat, now: U64)
    requires Inv(l) && l.program.Some? && i < |l.schedules| && !l.schedules[i].released
    requires TriggerAt(l, i, now).Commit?
    ensures var m := TriggerAt(l, i, now).state;
      Inv(m) && SpentDirectly(m) == SpentDirectly(l)
  {
    ReleaseAtKeepsInv(l, i, now, l.self, Automatic);
  }

  // ---------------------------------------------------------------------------------------------
  // A row of triggered releases
  // ---------------------------------------------------------------------------------------------

  predicate Increasing(indices: seq<nat>) {
    forall j, k :: 0 <= j < k < |indices| ==> indices[j] < indices[k]
  }

  /** Distinct, existing, unreleased schedules. */
  predicate Releasable(l: Ledger, indices: seq<nat>) {
    && InRange(l, indices) && Increasing(indices)
    && forall k :: 0 <= k < |indices| ==> !l.schedules[indices[k]].released
  }

  lemma {:induction false} TriggerEachLeavesOthers(l: Ledger, indices: seq<nat>, now: U64, i: nat)
    requires l.program.Some? && InRange(l, indices) && TriggerEach(l, indices, now).Commit?
    requires i < |l.schedules| && i !in indices
    ensures TriggerEach(l, indices, now).state.schedules[i] == l.schedules[i]
    decreases |indices|
  {
    if indices == [] {
    } else {
      TriggerEachLeavesOthers(l, indices[..|indices| - 1], now, i);
    }
  }

  lemma {:induction false} TriggerEachKeepsInv(l: Ledger, indices: seq<nat>, now: U64)
    requires Inv(l) && l.program.Some? && Releasable(l, indices) && TriggerEach(l, indices, now).Commit?
    ensures var m := TriggerEach(l, indices, now).state;
      Inv(m) && SpentDirectly(m) == SpentDirectly(l)
    decreases |indices|
  {
    if indices == [] {
    } else {
      var n := |indices| - 1;
      TriggerEachKeepsInv(l, indices[..n], now);
      TriggerEachLeavesOthers(l, indices[..n], now, indices[n]);
      TriggerAtKeepsInv(TriggerEach(l, indices[..n], now).state, indices[n], now);
    }
  }

  lemma {:induction false} EligibleBelowReleasable(l: Ledger, now: U64, k: nat)
    requires k <= |l.schedules|
    ensures Increasing(EligibleBelow(l, now, k))
    ensures forall j :: 0 <= j < |EligibleBelow(l, now, k)| ==>
              EligibleBelow(l, now, k)[j] < k && Eligible(l, now, EligibleBelow(l, now, k)[j])
    ensures forall i :: 0 <= i < k && Eligible(l, now, i) ==> i in EligibleBelow(l, now, k)
  {
    if k == 0 {
    } else {
      EligibleBelowReleasable(l, now, k - 1);
    }
  }

  lemma SelectedReleasable(l: Ledger, now: U64)
    ensures Releasable(l, Selected(l, now))
    ensures forall j :: 0 <= j < |Selected(l, now)| ==> Eligible(l, now, Selected(l, now)[j])
  {
    EligibleBelowReleasable(l, now, |l.schedules|);
  }

  // ---------------------------------------------------------------------------------------------
  // Every step keeps the invariant and accounts for what it spends
  // ---------------------------------------------------------------------------------------------

  /** What a call pays out directly, if it commits. */
  function PaidDirectly(l: Ledger, c: Call): int {
    if Step(l, c).Abort? then 0
    else
      match c.op
      case DoSingle(_, amount) => amount
      case DoBatch(_, amounts) => Sum(amounts, |amounts|)
      case _ => 0
  }

  /** The step from `l` to `m` kept the invariant and paid out `paid` directly. */
  ghost predicate Accounts(l: Ledger, m: Ledger, paid: int)
    requires Numbered(l)
  {
    && Inv(m)
    && (l.program.Some? ==> m.program.Some? && SpentDirectly(m) == SpentDirectly(l) + paid)
    && (l.program.None? ==> paid == 0 && (m.program.Some? ==> SpentDirectly(m) == 0))
  }

  lemma AppendKeepsReleasedTotal(schedules: seq<Schedule>, s: Schedule)
    requires s.amount > 0 && forall k :: 0 <= k < |schedules| ==> schedules[k].amount > 0
    ensures ReleasedTotal(schedules + [s]) == ReleasedTotal(schedules) + if s.released then s.amount else 0
  {
    assert (schedules + [s])[..|schedules|] == schedules;
  }

  /** Taking `total` out of the remaining balance and at most that out of the tokens. */
  lemma PayoutKeepsInv(l: Ledger, p': Program, b': Balances, total: int)
    requires Inv(l) && l.program.Some? && total >= 0
    requires p'.totalFunds == l.program.value.totalFunds && p'.remaining == l.program.value.remaining - total
    requires Balance(b', l.self) >= Balance(l.balances, l.self) - total
    ensures var m := l.(program := Some(p'), balances := b', breaker := B.OnSuccess(l.breaker));
      Inv(m) && SpentDirectly(m) == SpentDirectly(l) + total
  {
  }

  lemma BatchCommits(l: Ledger, tx: Tx, tos: seq<Address>, amounts: seq<I128>)
    requires BatchPayout(l, tx, tos, amounts).Commit?
    ensures l.program.Some? && |tos| == |amounts|
    ensures CheckedTotal(amounts, |amounts|).Commit? && TransferAll(l.balances, l.self, tos, amounts, |tos|).Some?
    ensures CheckedTotal(amounts, |amounts|).state <= l.program.value.remaining
    ensures var m := BatchPayout(l, tx, tos, amounts).state;
      && m.program.Some?
      && m == l.(program := m.program, balances := TransferAll(l.balances, l.self, tos, amounts, |tos|).value,
                 breaker := B.OnSuccess(l.breaker))
      && m.program.value.totalFunds == l.program.value.totalFunds
      && m.program.value.remaining == l.program.value.remaining - CheckedTotal(amounts, |amounts|).state
  {
  }

  lemma BatchKeepsInv(l: Ledger, tx: Tx, tos: seq<Address>, amounts: seq<I128>)
    requires Inv(l) && BatchPayout(l, tx, tos, amounts).Commit?
    ensures Accounts(l, BatchPayout(l, tx, tos, amounts).state, Sum(amounts, |amounts|))
  {
    BatchCommits(l, tx, tos, amounts);
    CheckedTotalIsSum(amounts, |amounts|);
    TransferAllCosts(l.balances, l.self, tos, amounts, |amounts|);
    SumPositive(amounts, |amounts|);
    var m := BatchPayout(l, tx, tos, amounts).state;
    PayoutKeepsInv(l, m.program.value, m.balances, Sum(amounts, |amounts|));
  }

  lemma {:induction false} SumPositive(amounts: seq<I128>, k: nat)
    requires k <= |amounts| && forall i :: 0 <= i < k ==> amounts[i] > 0
    ensures Sum(amounts, k) >= k
  {
    if k == 0 {
    } else {
      SumPositive(amounts, k - 1);
    }
  }

  lemma SingleKeepsInv(l: Ledger, tx: Tx, to: Address, amount: I128)
    requires Inv(l) && SinglePayout(l, tx, to, amount).Commit?
    ensures var m := SinglePayout(l, tx, to, amount).state;
      Accounts(l, m, amount)
  {
    TransferCosts(l.balances, l.self, to, amount);
    var m := SinglePayout(l, tx, to, amount).state;
    PayoutKeepsInv(l, m.program.value, m.balances, amount);
  }

  lemma LockKeepsInv(l: Ledger, tx: Tx, from: Address, amount: I128)
    requires Inv(l) && Lock(l, tx, from, amount).Commit?
    ensures var m := Lock(l, tx, from, amount).state;
      Accounts(l, m, 0)
  {
  }

  lemma CreateKeepsInv(l: Ledger, tx: Tx, amount: I128, releaseTime: U64, recipient: Address)
    requires Inv(l) && CreateSchedule(l, tx, amount, releaseTime, recipient).Commit?
    ensures var m := CreateSchedule(l, tx, amount, releaseTime, recipient).state;
      Accounts(l, m, 0)
  {
    var m := CreateSchedule(l, tx, amount, releaseTime, recipient).state;
    var n := |l.schedules|;
    AppendKeepsReleasedTotal(l.schedules, m.schedules[n]);
    forall j | 0 <= j < |m.releases|
      ensures 1 <= m.releases[j].scheduleId <= n && Matches(m.releases[j], m.schedules[m.releases[j].scheduleId - 1])
    {
      assert m.schedules[m.releases[j].scheduleId - 1] == l.schedules[l.releases[j].scheduleId - 1];
    }
    forall i | 0 <= i < |m.schedules| && m.schedules[i].released
      ensures HasEntry(m.releases, i + 1)
    {
      assert i < n && l.schedules[i].released;
    }
  }

  lemma TriggerKeepsInv(l: Ledger, tx: Tx)
    requires Inv(l) && Trigger(l, tx).Commit?
    ensures var m := Trigger(l, tx).state;
      Accounts(l, m, 0)
  {
    SelectedReleasable(l, tx.now);
    TriggerEachKeepsInv(l, Selected(l, tx.now), tx.now);
  }

  lemma ReleaseOneKeepsInv(l: Ledger, tx: Tx, id: U64, kind: ReleaseType)
    requires Inv(l) && ReleaseOne(l, tx, id, kind).Commit?
    ensures var m := ReleaseOne(l, tx, id, kind).state;
      Accounts(l, m, 0)
  {
    var releaser := if kind == Manual then l.program.value.payoutKey else l.self;
    ReleaseAtKeepsInv(l, IndexOf(l.schedules, id), tx.now, releaser, kind);
  }

  lemma OutsideKeepsInv(l: Ledger, from: Address, to: Address, amount: I128)
    requires Inv(l) && OutsideTransfer(l, from, to, amount).Commit?
    ensures Accounts(l, OutsideTransfer(l, from, to, amount).state, 0)
  {
    TransferCosts(l.balances, from, to, amount);
  }

  lemma OtherKeepsInv(l: Ledger, c: Call)
    requires Inv(l) && Step(l, c).Commit?
    requires c.op.DoInitialize? || c.op.DoOpenDispute? || c.op.DoCloseDispute? || c.op.DoReconfigure?
             || c.op.DoSetBreakerAdmin? || c.op.DoForceOpenBreaker? || c.op.DoResetBreaker? || c.op.DoConfigureBreaker?
    ensures Accounts(l, Next(l, c), 0)
  {
  }

  lemma StepKeepsInv(l: Ledger, c: Call)
    requires Inv(l)
    ensures Accounts(l, Next(l, c), PaidDirectly(l, c))
  {
    if Step(l, c).Commit? {
      match c.op
      case DoLock(from, amount) => LockKeepsInv(l, c.tx, from, amount);
      case DoSingle(to, amount) => SingleKeepsInv(l, c.tx, to, amount);
      case DoBatch(tos, amounts) => BatchKeepsInv(l, c.tx, tos, amounts);
      case DoCreate(amount, releaseTime, recipient) => CreateKeepsInv(l, c.tx, amount, releaseTime, recipient);
      case DoTrigger => TriggerKeepsInv(l, c.tx);
      case DoRelease(id, kind) => ReleaseOneKeepsInv(l, c.tx, id, kind);
      case DoOutsideTransfer(from, to, amount) => OutsideKeepsInv(l, from, to, amount);
      case _ => OtherKeepsInv(l, c);
    }
  }

  /** A freshly deployed contract, whatever tokens are around. */
  predicate Fresh(l: Ledger) {
    l == Deployed(l.self, l.balances)
  }

  lemma {:induction false} RunKeepsInv(start: Ledger, calls: seq<Call>, k: nat)
    requires Fresh(start) && k <= |calls|
    ensures Inv(At(start, calls, k))
  {
    if k == 0 {
    } else {
      RunKeepsInv(start, calls, k - 1);
      StepKeepsInv(At(start, calls, k - 1), calls[k - 1]);
    }
  }
}
