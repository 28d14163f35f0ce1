/** A call that fails tells the truth: the reason it gives describes the ledger and the call. */
module EscrowReasons {
  import opened Prelude
  import opened EscrowSpec
  import opened EscrowRuns
  import opened EscrowAccess
  import opened EscrowDisputes
  import B = CircuitBreaker
  import R = RateLimiter

  predicate DisputeOpenOn(l: Ledger, scope: Scope) {
    scope in l.disputes && l.disputes[scope].status == DisputeOpen
  }

  predicate IsDirect(op: Op) {
    op.DoSingle? || op.DoBatch?
  }

  /** What a signature is needed from. */
  predicate Unsigned(l: Ledger, c: Call) {
    match c.op
    case DoLock(from, _) => from !in c.tx.auth
    case DoOutsideTransfer(from, _, _) => from == l.self
    case DoForceOpenBreaker(caller) => caller !in c.tx.auth
    case DoResetBreaker(caller) => caller !in c.tx.auth
    case DoConfigureBreaker(caller, _) => caller !in c.tx.auth
    case DoOpenDispute(_) => l.settings.admin.Some? && l.settings.admin.value !in c.tx.auth
    case DoCloseDispute(_, _) => l.settings.admin.Some? && l.settings.admin.value !in c.tx.auth
    case DoSetBreakerAdmin(_, _) => l.settings.admin.Some? && l.settings.admin.value !in c.tx.auth
    case _ => (IsPayout(c.op) || c.op.DoCreate?) && l.program.Some? && l.program.value.payoutKey !in c.tx.auth
  }

  /** A dispute concerns the call. */
  predicate UnderDispute(l: Ledger, c: Call) {
    IsPayout(c.op) &&
    (|| DisputeOpenOn(l, Everyone)
     || (c.op.DoSingle? && DisputeOpenOn(l, Recipient(c.op.to)))
     || (c.op.DoBatch? && exists i :: 0 <= i < |c.op.tos| && DisputeOpenOn(l, Recipient(c.op.tos[i])))
     || (c.op.DoRelease? && 1 <= c.op.id <= |l.schedules|
         && (|| DisputeOpenOn(l, OneSchedule(c.op.id))
             || DisputeOpenOn(l, Recipient(l.schedules[c.op.id - 1].recipient)))))
  }

  predicate AmountMissing(c: Call) {
    match c.op
    case DoLock(_, amount) => amount <= 0
    case DoSingle(_, amount) => amount <= 0
    case DoCreate(amount, _, _) => amount <= 0
    case DoBatch(_, amounts) => exists i :: 0 <= i < |amounts| && amounts[i] <= 0
    case _ => false
  }

  /** The call asks for more than remains; a trigger call meets a selected schedule that does. */
  predicate AsksTooMuch(l: Ledger, c: Call) {
    l.program.Some? &&
    match c.op
    case DoSingle(_, amount) => amount > l.program.value.remaining
    case DoBatch(_, amounts) => Sum(amounts, |amounts|) > l.program.value.remaining
    case DoTrigger => true
    case _ => false
  }

  predicate NoSuchSchedule(l: Ledger, c: Call) {
    match c.op
    case DoRelease(id, _) => !(1 <= id <= |l.schedules|)
    case DoOpenDispute(scope) => scope.OneSchedule? && !(1 <= scope.id <= |l.schedules|)
    case _ => false
  }

  predicate WrongBreakerAdmin(l: Ledger, c: Call) {
    match c.op
    case DoForceOpenBreaker(caller) => l.breaker.admin != Some(caller)
    case DoResetBreaker(caller) => l.breaker.admin != Some(caller)
    case DoConfigureBreaker(caller, _) => l.breaker.admin != Some(caller)
    case DoSetBreakerAdmin(_, holder) =>
      l.breaker.admin.Some? && (holder != l.breaker.admin || l.breaker.admin.value !in c.tx.auth)
    case _ => false
  }

  predicate Released(l: Ledger, c: Call) {
    c.op.DoRelease? && 1 <= c.op.id <= |l.schedules| && l.schedules[c.op.id - 1].released
  }

  predicate TooEarly(l: Ledger, c: Call) {
    && c.op.DoRelease? && c.op.kind == Automatic && 1 <= c.op.id <= |l.schedules|
    && c.tx.now < l.schedules[c.op.id - 1].releaseTime
  }

  /** The tokens do not suffice for what the call moves first; for bulk calls, for something on the way. */
  predicate TokensMissing(l: Ledger, c: Call) {
    match c.op
    case DoLock(from, amount) => Balance(l.balances, from) < amount
    case DoSingle(_, amount) => Balance(l.balances, l.self) < amount
    case DoRelease(id, _) => 1 <= id <= |l.schedules| && Balance(l.balances, l.self) < l.schedules[id - 1].amount
    case DoOutsideTransfer(from, _, amount) => amount < 0 || Balance(l.balances, from) < amount
    case _ => c.op.DoBatch? || c.op.DoTrigger?
  }

  /** What each reason means. */
  predicate True(l: Ledger, c: Call, e: Fault) {
    match e
    case AlreadyInitialized => c.op.DoInitialize? && l.program.Some?
    case NotInitialized => l.program.None?
    case NotSigned => Unsigned(l, c)
    case Paused => (c.op.DoLock? && l.settings.lockPaused) || (IsDirect(c.op) && l.settings.releasePaused)
    case CircuitOpen => IsPayout(c.op) && l.breaker.state == B.Open
    case Disputed => UnderDispute(l, c)
    case GovernanceVersionTooLow => IsDirect(c.op) && !c.tx.governanceOk
    case RateLimited(why) =>
      c.op.DoLock? && R.Check(l.limits, l.rateExempt, c.op.from, c.tx.now, l.settings.rate) == Abort(why)
    case NonPositiveAmount => AmountMissing(c)
    case OverSingleCap =>
      c.op.DoLock? && l.settings.maxSingleLock.Some? && c.op.amount > l.settings.maxSingleLock.value
    case OverTotalCap =>
      && c.op.DoLock? && l.program.Some? && l.settings.maxTotalFunds.Some?
      && l.program.value.totalFunds + c.op.amount > l.settings.maxTotalFunds.value
    case Overflow => c.op.DoLock? || c.op.DoCreate? || IsPayout(c.op)
    case BalanceInvariant => c.op.DoLock?
    case TransferFailed => TokensMissing(l, c)
    case InsufficientBalance => AsksTooMuch(l, c)
    case NotWhitelisted => l.settings.whitelistEnforced
    case LengthMismatch => c.op.DoBatch? && |c.op.tos| != |c.op.amounts|
    case EmptyBatch => c.op.DoBatch? && c.op.tos == []
    case BatchTooLarge => c.op.DoBatch? && |c.op.tos| > 100
    case ScheduleNotFound => NoSuchSchedule(l, c)
    case AlreadyReleased => Released(l, c)
    case NotYetDue => TooEarly(l, c)
    case NotBreakerAdmin => WrongBreakerAdmin(l, c)
    case ZeroThreshold => c.op.DoConfigureBreaker? && c.op.cfg.failureThreshold == 0
    case AdminNotSet => l.settings.admin.None?
    case DisputeAlreadyOpen => c.op.DoOpenDispute? && DisputeOpenOn(l, c.op.scope)
    case NoDispute => c.op.DoCloseDispute? && c.op.scope !in l.disputes
    case NoOpenDispute => c.op.DoCloseDispute? && c.op.scope in l.disputes && !DisputeOpenOn(l, c.op.scope)
  }

  // ---------------------------------------------------------------------------------------------
  // Route by route
  // ---------------------------------------------------------------------------------------------

  lemma LockTells(l: Ledger, c: Call)
    requires c.op.DoLock? && Lock(l, c.tx, c.op.from, c.op.amount).Abort?
    ensures True(l, c, Lock(l, c.tx, c.op.from, c.op.amount).error)
  {
  }

  lemma SingleTells(l: Ledger, c: Call)
    requires c.op.DoSingle? && SinglePayout(l, c.tx, c.op.to, c.op.amount).Abort?
    ensures True(l, c, SinglePayout(l, c.tx, c.op.to, c.op.amount).error)
  {
  }

  lemma {:induction false} TotalTells(amounts: seq<I128>, k: nat)
    requires k <= |amounts| && CheckedTotal(amounts, k).Abort?
    ensures CheckedTotal(amounts, k).error in {NonPositiveAmount, Overflow}
    ensures CheckedTotal(amounts, k).error == NonPositiveAmount ==> exists i :: 0 <= i < |amounts| && amounts[i] <= 0
  {
    if k == 0 {
    } else if CheckedTotal(amounts, k - 1).Abort? {
      TotalTells(amounts, k - 1);
    } else if amounts[k - 1] <= 0 {
      assert 0 <= k - 1 < |amounts|;
    }
  }

  lemma BatchTells(l: Ledger, c: Call)
    requires c.op.DoBatch? && BatchPayout(l, c.tx, c.op.tos, c.op.amounts).Abort?
    ensures True(l, c, BatchPayout(l, c.tx, c.op.tos, c.op.amounts).error)
  {
    var tos, amounts := c.op.tos, c.op.amounts;
    if CheckedTotal(amounts, |amounts|).Abort? {
      TotalTells(amounts, |amounts|);
    } else {
      CheckedTotalIsSum(amounts, |amounts|);
    }
    if exists i :: 0 <= i < |tos| && IsOpen(l, Recipient(tos[i])) {
      var i :| 0 <= i < |tos| && IsOpen(l, Recipient(tos[i]));
      assert DisputeOpenOn(l, Recipient(tos[i]));
    }
  }

  lemma {:induction false} RowTells(l: Ledger, row: seq<nat>, now: U64)
    requires l.program.Some? && InRange(l, row) && TriggerEach(l, row, now).Abort?
    ensures TriggerEach(l, row, now).error in {InsufficientBalance, TransferFailed, Overflow}
    decreases |row|
  {
    if row == [] {
    } else if TriggerEach(l, row[..|row| - 1], now).Abort? {
      RowTells(l, row[..|row| - 1], now);
    }
  }

  lemma TriggerTells(l: Ledger, c: Call)
    requires c.op.DoTrigger? && Trigger(l, c.tx).Abort?
    ensures True(l, c, Trigger(l, c.tx).error)
  {
    if l.program.Some? && TriggerEach(l, Selected(l, c.tx.now), c.tx.now).Abort? {
      RowTells(l, Selected(l, c.tx.now), c.tx.now);
    }
  }

  lemma ReleaseAtTells(l: Ledger, i: nat, now: U64, releaser: Address, kind: ReleaseType)
    requires l.program.Some? && i < |l.schedules| && l.schedules[i].amount > 0
    requires ReleaseAt(l, i, now, releaser, kind).Abort?
    ensures ReleaseAt(l, i, now, releaser, kind).error in {TransferFailed, Overflow}
    ensures ReleaseAt(l, i, now, releaser, kind).error == TransferFailed ==>
              Balance(l.balances, l.self) < l.schedules[i].amount
  {
  }

  lemma AdmittedTells(l: Ledger, c: Call)
    requires Numbered(l) && c.op.DoRelease? && ReleaseOne(l, c.tx, c.op.id, c.op.kind).Abort?
    requires Admitted(l, c.tx, c.op.id, c.op.kind)
    ensures True(l, c, ReleaseOne(l, c.tx, c.op.id, c.op.kind).error)
  {
    var releaser := if c.op.kind == Manual then l.program.value.payoutKey else l.self;
    ReleaseAdmits(l, c.tx, c.op.id, c.op.kind);
    ReleaseAtTells(l, c.op.id - 1, c.tx.now, releaser, c.op.kind);
  }

  lemma RefusedTells(l: Ledger, c: Call)
    requires Numbered(l) && c.op.DoRelease? && !Admitted(l, c.tx, c.op.id, c.op.kind)
    ensures ReleaseOne(l, c.tx, c.op.id, c.op.kind).Abort?
    ensures True(l, c, ReleaseOne(l, c.tx, c.op.id, c.op.kind).error)
  {
    DenseIds(l, c.op.id);
  }

  lemma ReleaseTells(l: Ledger, c: Call)
    requires Numbered(l) && c.op.DoRelease? && ReleaseOne(l, c.tx, c.op.id, c.op.kind).Abort?
    ensures True(l, c, ReleaseOne(l, c.tx, c.op.id, c.op.kind).error)
  {
    if Admitted(l, c.tx, c.op.id, c.op.kind) {
      AdmittedTells(l, c);
    } else {
      RefusedTells(l, c);
    }
  }

  lemma CreateTells(l: Ledger, c: Call)
    requires c.op.DoCreate? && CreateSchedule(l, c.tx, c.op.amount, c.op.releaseTime, c.op.recipient).Abort?
    ensures True(l, c, CreateSchedule(l, c.tx, c.op.amount, c.op.releaseTime, c.op.recipient).error)
  {
  }

  lemma DisputesTell(l: Ledger, c: Call)
    requires Numbered(l) && (c.op.DoOpenDispute? || c.op.DoCloseDispute?) && Step(l, c).Abort?
    ensures True(l, c, Step(l, c).error)
  {
    if c.op.DoOpenDispute? && c.op.scope.OneSchedule? {
      DenseIds(l, c.op.scope.id);
    }
  }

  lemma OthersTell(l: Ledger, c: Call)
    requires !IsPayout(c.op) && !c.op.DoLock? && !c.op.DoCreate? && !c.op.DoOpenDispute? && !c.op.DoCloseDispute?
    requires Step(l, c).Abort?
    ensures True(l, c, Step(l, c).error)
  {
  }

  /** Main result: in every reachable ledger the reason a failing call gives is true of it. */
  lemma ReasonsAreTrue(start: Ledger, calls: seq<Call>, k: nat, c: Call)
    requires Fresh(start) && k <= |calls| && Step(At(start, calls, k), c).Abort?
    ensures True(At(start, calls, k), c, Step(At(start, calls, k), c).error)
  {
    RunKeepsInv(start, calls, k);
    var l := At(start, calls, k);
    match c.op
    case DoLock(_, _) => LockTells(l, c);
    case DoSingle(_, _) => SingleTells(l, c);
    case DoBatch(_, _) => BatchTells(l, c);
    case DoTrigger => TriggerTells(l, c);
    case DoRelease(_, _) => ReleaseTells(l, c);
    case DoCreate(_, _, _) => CreateTells(l, c);
    case DoOpenDispute(_) => DisputesTell(l, c);
    case DoCloseDispute(_, _) => DisputesTell(l, c);
    case _ => OthersTell(l, c);
  }
}
