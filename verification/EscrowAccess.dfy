/** Who may move funds and under which conditions: the payout key, the lock's and the single
    release's exact conditions, the caps, the pause flag. */
module EscrowAccess {
  import opened Prelude
  import opened EscrowSpec
  import opened EscrowRuns
  import opened EscrowDisputes
  import B = CircuitBreaker
  import R = RateLimiter

  // ---------------------------------------------------------------------------------------------
  // The terms of a program: only a lock changes its total, nothing its key
  // ---------------------------------------------------------------------------------------------

  /** What a call locks, if it commits. */
  function LockedBy(l: Ledger, c: Call): int {
    if Step(l, c).Commit? && c.op.DoLock? then c.op.amount else 0
  }

  /** From `l` to `m` the program kept its id and key, and its total grew by `locked`. */
  predicate KeepsTerms(l: Ledger, m: Ledger, locked: int) {
    if l.program.Some? then
      && m.program.Some?
      && m.program.value.id == l.program.value.id
      && m.program.value.payoutKey == l.program.value.payoutKey
      && m.program.value.totalFunds == l.program.value.totalFunds + locked
    else if m.program.Some? then m.program.value.totalFunds == locked
    else locked == 0
  }

  lemma {:induction false} TriggerEachKeepsTerms(l: Ledger, indices: seq<nat>, now: U64)
    requires l.program.Some? && InRange(l, indices) && TriggerEach(l, indices, now).Commit?
    ensures KeepsTerms(l, TriggerEach(l, indices, now).state, 0)
    decreases |indices|
  {
    if indices == [] {
    } else {
      TriggerEachKeepsTerms(l, indices[..|indices| - 1], now);
    }
  }

  lemma BatchKeepsTerms(l: Ledger, tx: Tx, tos: seq<Address>, amounts: seq<I128>)
    requires BatchPayout(l, tx, tos, amounts).Commit?
    ensures KeepsTerms(l, BatchPayout(l, tx, tos, amounts).state, 0)
  {
  }

  lemma ReleaseKeepsTerms(l: Ledger, tx: Tx, id: U64, kind: ReleaseType)
    requires ReleaseOne(l, tx, id, kind).Commit?
    ensures KeepsTerms(l, ReleaseOne(l, tx, id, kind).state, 0)
  {
  }

  lemma OtherKeepsTerms(l: Ledger, c: Call)
    requires Step(l, c).Commit? && !c.op.DoBatch? && !c.op.DoTrigger? && !c.op.DoRelease?
    ensures KeepsTerms(l, Next(l, c), LockedBy(l, c))
  {
  }

  lemma StepKeepsTerms(l: Ledger, c: Call)
    ensures KeepsTerms(l, Next(l, c), LockedBy(l, c))
  {
    if Step(l, c).Commit? {
      match c.op
      case DoBatch(tos, amounts) => BatchKeepsTerms(l, c.tx, tos, amounts);
      case DoTrigger => TriggerEachKeepsTerms(l, Selected(l, c.tx.now), c.tx.now);
      case DoRelease(id, kind) => ReleaseKeepsTerms(l, c.tx, id, kind);
      case _ => OtherKeepsTerms(l, c);
    }
  }

  /** The amounts locked by the transactions from `j` up to `k`. */
  function Locked(start: Ledger, calls: seq<Call>, j: nat, k: nat): int
    requires j <= k <= |calls|
    decreases k
  {
    if j == k then 0 else Locked(start, calls, j, k - 1) + LockedBy(At(start, calls, k - 1), calls[k - 1])
  }

  /** Main result: a program's total is exactly what has been locked, and its id and payout key are
      for ever those it was registered with. */
  lemma {:induction false} TotalIsWhatWasLocked(start: Ledger, calls: seq<Call>, j: nat, k: nat)
    requires Fresh(start) && j <= k <= |calls|
    ensures KeepsTerms(At(start, calls, j), At(start, calls, k), Locked(start, calls, j, k))
    decreases k
  {
    if j == k {
    } else {
      TotalIsWhatWasLocked(start, calls, j, k - 1);
      StepKeepsTerms(At(start, calls, k - 1), calls[k - 1]);
    }
  }

  /** Main result: as long as every lock happened under a cap of at most `cap`, the total respects it. */
  lemma {:induction false} TotalWithinCap(start: Ledger, calls: seq<Call>, k: nat, cap: nat)
    requires Fresh(start) && k <= |calls|
    requires forall i :: 0 <= i < k && calls[i].op.DoLock? ==>
               var limit := At(start, calls, i).settings.maxTotalFunds; limit.Some? && limit.value <= cap
    ensures var l := At(start, calls, k); l.program.Some? ==> l.program.value.totalFunds <= cap
  {
    if k == 0 {
    } else {
      TotalWithinCap(start, calls, k - 1, cap);
      StepKeepsTerms(At(start, calls, k - 1), calls[k - 1]);
    }
  }

  // ---------------------------------------------------------------------------------------------
  // The payout key
  // ---------------------------------------------------------------------------------------------

  /** Tokens left the contract, or its program was charged. */
  predicate PaysOut(l: Ledger, m: Ledger) {
    || Balance(m.balances, l.self) < Balance(l.balances, l.self)
    || (l.program.Some? && m.program.Some? && m.program.value.remaining < l.program.value.remaining)
  }

  lemma PayoutsAreGuarded(l: Ledger, c: Call)
    requires IsPayout(c.op) && Step(l, c).Commit?
    ensures ReleasesOpen(l, c.tx)
  {
  }

  lemma LockPaysNothing(l: Ledger, tx: Tx, from: Address, amount: I128)
    requires Lock(l, tx, from, amount).Commit?
    ensures !PaysOut(l, Lock(l, tx, from, amount).state)
  {
    TransferCosts(l.balances, from, l.self, amount);
  }

  lemma OutsidersTakeNothing(l: Ledger, from: Address, to: Address, amount: I128)
    requires OutsideTransfer(l, from, to, amount).Commit?
    ensures !PaysOut(l, OutsideTransfer(l, from, to, amount).state)
  {
    TransferCosts(l.balances, from, to, amount);
  }

  lemma CreatePaysNothing(l: Ledger, tx: Tx, amount: I128, releaseTime: U64, recipient: Address)
    requires CreateSchedule(l, tx, amount, releaseTime, recipient).Commit?
    ensures !PaysOut(l, CreateSchedule(l, tx, amount, releaseTime, recipient).state)
  {
  }

  lemma OthersMoveNothing(l: Ledger, c: Call)
    requires Step(l, c).Commit? && !IsPayout(c.op)
    requires !c.op.DoLock? && !c.op.DoOutsideTransfer? && !c.op.DoCreate?
    ensures Next(l, c).balances == l.balances && (l.program.Some? ==> Next(l, c).program == l.program)
  {
  }

  lemma OthersPayNothing(l: Ledger, c: Call)
    requires !IsPayout(c.op)
    ensures !PaysOut(l, Next(l, c))
  {
    if Step(l, c).Commit? {
      match c.op
      case DoLock(from, amount) => LockPaysNothing(l, c.tx, from, amount);
      case DoOutsideTransfer(from, to, amount) => OutsidersTakeNothing(l, from, to, amount);
      case DoCreate(amount, releaseTime, recipient) => CreatePaysNothing(l, c.tx, amount, releaseTime, recipient);
      case _ => OthersMoveNothing(l, c);
    }
  }

  /** Main result: whenever tokens leave the contract or the remaining balance falls, the call is one
      of the five payout routes, signed with the key the program was registered with, while the
      circuit lets operations through and no global dispute is open. */
  lemma FundsNeedTheKey(start: Ledger, calls: seq<Call>, j: nat, k: nat)
    requires Fresh(start) && j <= k < |calls| && At(start, calls, j).program.Some?
    requires PaysOut(At(start, calls, k), At(start, calls, k + 1))
    ensures var l := At(start, calls, k);
      && IsPayout(calls[k].op)
      && At(start, calls, j).program.value.payoutKey in calls[k].tx.auth
      && B.Allows(l.breaker) && !IsOpen(l, Everyone)
  {
    var l := At(start, calls, k);
    TotalIsWhatWasLocked(start, calls, j, k);
    if !IsPayout(calls[k].op) {
      OthersPayNothing(l, calls[k]);
    } else {
      assert Step(l, calls[k]).Commit?;
      PayoutsAreGuarded(l, calls[k]);
    }
  }

  // ---------------------------------------------------------------------------------------------
  // Exactly when a lock and a single release succeed, and what they leave
  // ---------------------------------------------------------------------------------------------

  /** The caller-visible conditions of a lock. */
  predicate MayLock(l: Ledger, tx: Tx, from: Address, amount: I128) {
    && from in tx.auth && !l.settings.lockPaused
    && R.Check(l.limits, l.rateExempt, from, tx.now, l.settings.rate).Commit?
    && 0 < amount <= Balance(l.balances, from)
    && l.program.Some?
    && l.program.value.totalFunds + amount <= I128_MAX
    && (l.settings.maxSingleLock.Some? ==> amount <= l.settings.maxSingleLock.value)
    && (l.settings.maxTotalFunds.Some? ==> l.program.value.totalFunds + amount <= l.settings.maxTotalFunds.value)
  }

  /** Exactly `amount` went from one account to another. */
  ghost predicate Moved(b: Balances, b': Balances, from: Address, to: Address, amount: int) {
    && Balance(b', from) == Balance(b, from) - (if from == to then 0 else amount)
    && (from != to ==> Balance(b', to) == Balance(b, to) + amount)
    && forall a :: a != from && a != to ==> Balance(b', a) == Balance(b, a)
  }

  /** What a lock leaves, the rate limiter's records aside. */
  ghost predicate LockedInto(l: Ledger, m: Ledger, from: Address, amount: I128)
    requires l.program.Some?
  {
    var p := l.program.value;
    && FitsI128(p.totalFunds + amount) && FitsI128(p.remaining + amount)
    && m == l.(program := m.program, limits := m.limits, balances := m.balances)
    && m.program == Some(p.(totalFunds := p.totalFunds + amount, remaining := p.remaining + amount))
    && Moved(l.balances, m.balances, from, l.self, amount)
  }

  lemma FundedLockSucceeds(l: Ledger, tx: Tx, from: Address, amount: I128)
    requires Funded(l) && from != l.self && MayLock(l, tx, from, amount)
    ensures Lock(l, tx, from, amount).Commit? && LockedInto(l, Lock(l, tx, from, amount).state, from, amount)
  {
    TransferCosts(l.balances, from, l.self, amount);
  }

  lemma LockNeeds(l: Ledger, tx: Tx, from: Address, amount: I128)
    requires Lock(l, tx, from, amount).Commit?
    ensures MayLock(l, tx, from, amount)
  {
  }

  /** Main result: in every reachable ledger a lock by anyone but the contract needs nothing beyond
      these conditions; neither the counter of what remains nor the final balance check can fail. */
  lemma LockExact(start: Ledger, calls: seq<Call>, k: nat, tx: Tx, from: Address, amount: I128)
    requires Fresh(start) && k <= |calls| && from != At(start, calls, k).self
    ensures var l := At(start, calls, k); var r := Lock(l, tx, from, amount);
      && (r.Commit? <==> MayLock(l, tx, from, amount))
      && (r.Commit? ==> LockedInto(l, r.state, from, amount))
  {
    RunKeepsInv(start, calls, k);
    var l := At(start, calls, k);
    if MayLock(l, tx, from, amount) {
      FundedLockSucceeds(l, tx, from, amount);
    } else if Lock(l, tx, from, amount).Commit? {
      LockNeeds(l, tx, from, amount);
    }
  }

  lemma DenseIds(l: Ledger, id: U64)
    requires Numbered(l)
    ensures IndexOf(l.schedules, id) == if 1 <= id <= |l.schedules| then id - 1 else |l.schedules|
  {
    var i := IndexOf(l.schedules, id);
    if 1 <= id <= |l.schedules| {
      assert l.schedules[id - 1].id == id;
    }
  }

  /** What a release of schedule `id` leaves, the breaker aside. */
  ghost predicate ReleasedInto(l: Ledger, m: Ledger, now: U64, id: U64, kind: ReleaseType)
    requires l.program.Some? && 1 <= id <= |l.schedules|
  {
    var p, s := l.program.value, l.schedules[id - 1];
    var releaser := if kind == Manual then p.payoutKey else l.self;
    && FitsI128(p.remaining - s.amount)
    && m.program == Some(p.(remaining := p.remaining - s.amount))
    && m.schedules == l.schedules[id - 1 := s.(released := true, releasedAt := Some(now), releasedBy := Some(releaser))]
    && m.releases == l.releases + [Release(id, s.recipient, s.amount, now, kind)]
    && Moved(l.balances, m.balances, l.self, s.recipient, s.amount)
  }

  lemma ReleaseAtExact(l: Ledger, id: U64, now: U64, kind: ReleaseType)
    requires l.program.Some? && 1 <= id <= |l.schedules| && l.schedules[id - 1].id == id
        && l.schedules[id - 1].amount > 0
    ensures var s := l.schedules[id - 1];
      var r := ReleaseAt(l, id - 1, now, if kind == Manual then l.program.value.payoutKey else l.self, kind);
      && (r.Commit? <==> s.amount <= Balance(l.balances, l.self) && FitsI128(l.program.value.remaining - s.amount))
      && (r.Commit? ==> ReleasedInto(l, r.state, now, id, kind) && r.state.breaker == l.breaker)
  {
    var s := l.schedules[id - 1];
    if Transfer(l.balances, l.self, s.recipient, s.amount).Some? {
      TransferCosts(l.balances, l.self, s.recipient, s.amount);
    }
  }

  /** Everything a release by id checks before it moves anything. */
  predicate Admitted(l: Ledger, tx: Tx, id: U64, kind: ReleaseType) {
    && ReleasesOpen(l, tx)
    && 1 <= id <= |l.schedules|
    && var s := l.schedules[id - 1];
    && !s.released && (kind == Automatic ==> tx.now >= s.releaseTime)
    && !ScopeDisputed(l, id, s.recipient) && Payable(l, s.recipient)
  }

  lemma ReleaseAdmits(l: Ledger, tx: Tx, id: U64, kind: ReleaseType)
    requires Numbered(l)
    ensures !Admitted(l, tx, id, kind) ==> ReleaseOne(l, tx, id, kind).Abort?
    ensures Admitted(l, tx, id, kind) ==>
              ReleaseOne(l, tx, id, kind)
              == match ReleaseAt(l, id - 1, tx.now, if kind == Manual then l.program.value.payoutKey else l.self, kind)
                 case Abort(e) => Abort(e)
                 case Commit(m) => Commit(m.(breaker := B.OnSuccess(m.breaker)))
  {
    DenseIds(l, id);
  }

  /** The contract's tokens can pay for schedule `id`. */
  predicate Affordable(l: Ledger, id: U64)
    requires l.program.Some? && 1 <= id <= |l.schedules|
  {
    var amount := l.schedules[id - 1].amount;
    amount <= Balance(l.balances, l.self) && FitsI128(l.program.value.remaining - amount)
  }

  lemma AdmittedRelease(l: Ledger, tx: Tx, id: U64, kind: ReleaseType)
    requires Numbered(l) && Admitted(l, tx, id, kind)
    ensures var r := ReleaseOne(l, tx, id, kind);
      && (r.Commit? <==> Affordable(l, id))
      && (r.Commit? ==> ReleasedInto(l, r.state, tx.now, id, kind) && r.state.breaker == B.OnSuccess(l.breaker))
  {
    ReleaseAdmits(l, tx, id, kind);
    ReleaseAtExact(l, id, tx.now, kind);
  }

  /** Main result: in every reachable ledger a release by id succeeds exactly when it is admitted and
      the contract's tokens, not its remaining balance, cover the amount. It flags that one schedule,
      books it once, moves its amount, and leaves the payout history alone. */
  lemma ReleaseExact(start: Ledger, calls: seq<Call>, k: nat, tx: Tx, id: U64, kind: ReleaseType)
    requires Fresh(start) && k <= |calls|
    ensures var l := At(start, calls, k); var r := ReleaseOne(l, tx, id, kind);
      && (r.Commit? <==> Admitted(l, tx, id, kind) && Affordable(l, id))
      && (r.Commit? ==> ReleasedInto(l, r.state, tx.now, id, kind) && r.state.breaker == B.OnSuccess(l.breaker))
  {
    RunKeepsInv(start, calls, k);
    ReleaseOfNumbered(At(start, calls, k), tx, id, kind);
  }

  lemma ReleaseOfNumbered(l: Ledger, tx: Tx, id: U64, kind: ReleaseType)
    requires Numbered(l)
    ensures var r := ReleaseOne(l, tx, id, kind);
      && (r.Commit? <==> Admitted(l, tx, id, kind) && Affordable(l, id))
      && (r.Commit? ==> ReleasedInto(l, r.state, tx.now, id, kind) && r.state.breaker == B.OnSuccess(l.breaker))
  {
    if Admitted(l, tx, id, kind) {
      AdmittedRelease(l, tx, id, kind);
    } else {
      ReleaseAdmits(l, tx, id, kind);
    }
  }

  // ---------------------------------------------------------------------------------------------
  // The pause flag
  // ---------------------------------------------------------------------------------------------

  function WithPause(l: Ledger): Ledger {
    l.(settings := l.settings.(releasePaused := true))
  }

  function PausedResult(r: Outcome<Ledger, Fault>): Outcome<Ledger, Fault> {
    match r
    case Commit(m) => Commit(WithPause(m))
    case Abort(e) => Abort(e)
  }

  lemma {:induction false} PauseKeepsEligible(l: Ledger, now: U64, k: nat)
    requires k <= |l.schedules|
    ensures EligibleBelow(WithPause(l), now, k) == EligibleBelow(l, now, k)
  {
    if k == 0 {
    } else {
      PauseKeepsEligible(l, now, k - 1);
    }
  }

  lemma PauseKeepsTriggerAt(l: Ledger, i: nat, now: U64)
    requires l.program.Some? && i < |l.schedules|
    ensures TriggerAt(WithPause(l), i, now) == PausedResult(TriggerAt(l, i, now))
  {
  }

  lemma {:induction false} PauseKeepsTriggerEach(l: Ledger, indices: seq<nat>, now: U64)
    requires l.program.Some? && InRange(l, indices)
    ensures TriggerEach(WithPause(l), indices, now) == PausedResult(TriggerEach(l, indices, now))
    decreases |indices|
  {
    if indices == [] {
    } else {
      var n := |indices| - 1;
      PauseKeepsTriggerEach(l, indices[..n], now);
      if TriggerEach(l, indices[..n], now).Commit? {
        PauseKeepsTriggerAt(TriggerEach(l, indices[..n], now).state, indices[n], now);
      }
    }
  }

  lemma PauseKeepsRelease(l: Ledger, tx: Tx, id: U64, kind: ReleaseType)
    ensures ReleaseOne(WithPause(l), tx, id, kind) == PausedResult(ReleaseOne(l, tx, id, kind))
  {
  }

  lemma PauseKeepsSelected(l: Ledger, now: U64)
    ensures Selected(WithPause(l), now) == Selected(l, now)
  {
    PauseKeepsEligible(l, now, |l.schedules|);
  }

  lemma PauseKeepsTrigger(l: Ledger, tx: Tx)
    ensures Trigger(WithPause(l), tx) == PausedResult(Trigger(l, tx))
  {
    PauseKeepsSelected(l, tx.now);
    var sel := Selected(l, tx.now);
    if l.program.Some? {
      PauseKeepsTriggerEach(l, sel, tx.now);
      TriggerFollowsEach(WithPause(l), tx, sel);
      TriggerFollowsEach(l, tx, sel);
    }
  }

  /** A trigger call is its guards, then the releases, then one success if there were any. */
  lemma TriggerFollowsEach(l: Ledger, tx: Tx, sel: seq<nat>)
    requires l.program.Some? && sel == Selected(l, tx.now)
    ensures !B.Allows(l.breaker) ==> Trigger(l, tx) == Abort(CircuitOpen)
    ensures B.Allows(l.breaker) && IsOpen(l, Everyone) ==> Trigger(l, tx) == Abort(Disputed)
    ensures B.Allows(l.breaker) && !IsOpen(l, Everyone) && l.program.value.payoutKey !in tx.auth ==>
        Trigger(l, tx) == Abort(NotSigned)
    ensures ReleasesOpen(l, tx) ==>
              match TriggerEach(l, sel, tx.now)
              case Abort(e) => Trigger(l, tx) == Abort(e)
              case Commit(m) => Trigger(l, tx) == Commit(if sel == [] then m else m.(breaker := B.OnSuccess(m.breaker)))
  {
  }

  lemma PauseStopsDirect(l: Ledger, tx: Tx, to: Address, amount: I128, tos: seq<Address>, amounts: seq<I128>)
    ensures SinglePayout(WithPause(l), tx, to, amount).Abort? && BatchPayout(WithPause(l), tx, tos, amounts).Abort?
  {
  }

  /** Main result: the release pause stops every single and batch payout and no schedule release:
      the other three routes do exactly what they would do without it. */
  lemma PauseStopsOnlyDirectPayouts(l: Ledger, c: Call)
    requires IsPayout(c.op)
    ensures if c.op.DoSingle? || c.op.DoBatch? then Step(WithPause(l), c).Abort?
            else Step(WithPause(l), c) == PausedResult(Step(l, c))
  {
    match c.op
    case DoSingle(to, amount) => PauseStopsDirect(l, c.tx, to, amount, [], []);
    case DoBatch(tos, amounts) => PauseStopsDirect(l, c.tx, l.self, 0, tos, amounts);
    case DoTrigger => PauseKeepsTrigger(l, c.tx);
    case DoRelease(id, kind) => PauseKeepsRelease(l, c.tx, id, kind);
  }
}
