/** What every entry point of the program escrow does to its storage and to the token balances
    (program-escrow/src/lib.rs). */
module EscrowSpec {
  import opened Prelude
  import B = CircuitBreaker
  import R = RateLimiter

  const MAX_BATCH_SIZE: nat := 100

  datatype PayoutRecord = PayoutRecord(recipient: Address, amount: I128, timestamp: U64)

  datatype Program = Program(
    id: string,
    totalFunds: I128,
    remaining: I128,
    payoutKey: Address,
    token: Address,
    payouts: seq<PayoutRecord>)

  datatype Schedule = Schedule(
    id: U64,
    recipient: Address,
    amount: I128,
    releaseTime: U64,
    released: bool,
    releasedAt: Option<U64>,
    releasedBy: Option<Address>)

  datatype ReleaseType = Manual | Automatic

  datatype Release = Release(scheduleId: U64, recipient: Address, amount: I128, releasedAt: U64, kind: ReleaseType)

  datatype Scope = Everyone | Recipient(who: Address) | OneSchedule(id: U64)

  datatype DisputeStatus = DisputeOpen | DisputeResolved | DisputeCancelled

  datatype DisputeRecord = DisputeRecord(
    openedBy: Address,
    openedAt: U64,
    status: DisputeStatus,
    closedBy: Option<Address>,
    closedAt: Option<U64>)

  type BasisPoints = x: int | 0 <= x <= 10_000

  /** Everything administrators can set at will. */
  datatype Settings = Settings(
    admin: Option<Address>,
    lockPaused: bool,
    releasePaused: bool,
    whitelistEnforced: bool,
    whitelist: set<Address>,
    largePayoutBps: BasisPoints,
    maxTotalFunds: Option<I128>,
    maxSingleLock: Option<I128>,
    rate: R.Config)

  const DEFAULT_SETTINGS := Settings(None, false, false, false, {}, 1000, None, None, R.Config(3600, 10, 60))

  type Balances = map<Address, nat>

  /** The contract's storage together with the token ledger. */
  datatype Ledger = Ledger(
    self: Address,
    program: Option<Program>,
    schedules: seq<Schedule>,
    releases: seq<Release>,
    nextId: U64,
    disputes: map<Scope, DisputeRecord>,
    settings: Settings,
    breaker: B.Breaker,
    rateExempt: set<Address>,
    limits: R.States,
    balances: Balances)

  /** A transaction's surroundings: who signed it, the ledger time, and the answer of the linked
      governance contract's version gate. */
  datatype Tx = Tx(auth: set<Address>, now: U64, governanceOk: bool)

  datatype Fault =
    | AlreadyInitialized | NotInitialized | NotSigned | Paused | CircuitOpen | Disputed | GovernanceVersionTooLow
    | RateLimited(why: R.Fault) | NonPositiveAmount | OverSingleCap | OverTotalCap | Overflow | BalanceInvariant
    | TransferFailed | InsufficientBalance | NotWhitelisted | LengthMismatch | EmptyBatch | BatchTooLarge
    | ScheduleNotFound | AlreadyReleased | NotYetDue
    | NotBreakerAdmin | ZeroThreshold
    | AdminNotSet | DisputeAlreadyOpen | NoDispute | NoOpenDispute

  function Deployed(self: Address, balances: Balances): Ledger {
    Ledger(self, None, [], [], 1, map[], DEFAULT_SETTINGS, B.Fresh(B.DEFAULT_CONFIG), {}, map[], balances)
  }

  // ---------------------------------------------------------------------------------------------
  // Token
  // ---------------------------------------------------------------------------------------------

  function Balance(b: Balances, who: Address): nat {
    if who in b then b[who] else 0
  }

  function Transfer(b: Balances, from: Address, to: Address, amount: int): Option<Balances> {
    if amount < 0 || Balance(b, from) < amount then None
    else
      var debited := b[from := Balance(b, from) - amount];
      Some(debited[to := Balance(debited, to) + amount])
  }

  /** The first `k` of a row of transfers out of one account. */
  function TransferAll(b: Balances, from: Address, tos: seq<Address>, amounts: seq<I128>, k: nat): Option<Balances>
    requires k <= |tos| == |amounts|
  {
    if k == 0 then Some(b)
    else
      match TransferAll(b, from, tos, amounts, k - 1)
      case None => None
      case Some(b') => Transfer(b', from, tos[k - 1], amounts[k - 1])
  }

  // ---------------------------------------------------------------------------------------------
  // Guards
  // ---------------------------------------------------------------------------------------------

  predicate IsOpen(l: Ledger, scope: Scope) {
    scope in l.disputes && l.disputes[scope].status == DisputeOpen
  }

  predicate ScopeDisputed(l: Ledger, id: U64, recipient: Address) {
    IsOpen(l, OneSchedule(id)) || IsOpen(l, Recipient(recipient))
  }

  predicate Payable(l: Ledger, who: Address) {
    l.settings.whitelistEnforced ==> who in l.settings.whitelist
  }

  // ---------------------------------------------------------------------------------------------
  // What a payout's body has written when it panics
  // ---------------------------------------------------------------------------------------------

  /** The breaker with the shortage recorded; with a full counter the recording itself panics. */
  function WithShortage(l: Ledger, operation: string, now: U64): B.Breaker
    requires l.program.Some?
  {
    match B.OnFailure(l.breaker, operation, l.program.value.id, B.ERR_INSUFFICIENT_BALANCE, now)
    case Commit(b) => b
    case Abort(_) => l.breaker
  }

  /** How the body of a direct payout ends, before the host keeps or discards its writes: as
      specified; if a shortage made it panic, with only that failure recorded in the breaker; if the
      circuit was open, with nothing written. */
  predicate Ran(before: Ledger, after: Ledger, panic: Option<Fault>, spec: Outcome<Ledger, Fault>,
      operation: string, now: U64)
  {
    match spec
    case Commit(m) => after == m && panic == None
    case Abort(e) =>
      && panic == Some(e)
      && (e == InsufficientBalance ==>
            before.program.Some? && after == before.(breaker := WithShortage(before, operation, now)))
      && (e == CircuitOpen ==> after == before)
  }

  // ---------------------------------------------------------------------------------------------
  // Setting up and locking funds
  // ---------------------------------------------------------------------------------------------

  function Initialize(l: Ledger, id: string, payoutKey: Address, token: Address): Outcome<Ledger, Fault> {
    if l.program.Some? then Abort(AlreadyInitialized)
    else
      var program := Program(id, 0, 0, payoutKey, token, []);
      Commit(l.(program := Some(program), schedules := [], releases := [], nextId := 1))
  }

  function Lock(l: Ledger, tx: Tx, from: Address, amount: I128): Outcome<Ledger, Fault> {
    if from !in tx.auth then Abort(NotSigned)
    else if l.settings.lockPaused then Abort(Paused)
    else
      match R.Check(l.limits, l.rateExempt, from, tx.now, l.settings.rate)
      case Abort(e) => Abort(RateLimited(e))
      case Commit(limits) =>
        if amount <= 0 then Abort(NonPositiveAmount)
        else if l.program.None? then Abort(NotInitialized)
        else
          var p := l.program.value;
          var caps := l.settings;
          if caps.maxSingleLock.Some? && amount > caps.maxSingleLock.value then Abort(OverSingleCap)
          else if caps.maxTotalFunds.Some? && !FitsI128(p.totalFunds + amount) then Abort(Overflow)
          else if caps.maxTotalFunds.Some? && p.totalFunds + amount > caps.maxTotalFunds.value then Abort(OverTotalCap)
          else
            match Transfer(l.balances, from, l.self, amount)
            case None => Abort(TransferFailed)
            case Some(balances) =>
              if !FitsI128(p.totalFunds + amount) || !FitsI128(p.remaining + amount) then Abort(Overflow)
              else if Balance(balances, l.self) < p.remaining + amount then Abort(BalanceInvariant)
              else
                var p' := p.(totalFunds := p.totalFunds + amount, remaining := p.remaining + amount);
                Commit(l.(program := Some(p'), limits := limits, balances := balances))
  }

  /** How the body of a lock ends: once the rate limiter has let it through, the operation is counted
      whatever panic follows, and tokens have moved before the last checks. */
  predicate RanLock(before: Ledger, after: Ledger, panic: Option<Fault>, tx: Tx, from: Address, amount: I128) {
    match Lock(before, tx, from, amount)
    case Commit(m) => after == m && panic == None
    case Abort(e) =>
      && panic == Some(e)
      && if e.NotSigned? || e.Paused? || e.RateLimited? then after == before
         else
           var counted := R.Check(before.limits, before.rateExempt, from, tx.now, before.settings.rate);
           && counted.Commit?
           && after == before.(limits := counted.state, balances := after.balances)
           && (e == BalanceInvariant ==> Transfer(before.balances, from, before.self, amount) == Some(after.balances))
           && (e != BalanceInvariant && e != Overflow ==> after.balances == before.balances)
  }

  // ---------------------------------------------------------------------------------------------
  // Direct payouts
  // ---------------------------------------------------------------------------------------------

  function SinglePayout(l: Ledger, tx: Tx, to: Address, amount: I128): Outcome<Ledger, Fault> {
    if !B.Allows(l.breaker) then Abort(CircuitOpen)
    else if l.settings.releasePaused then Abort(Paused)
    else if IsOpen(l, Everyone) || IsOpen(l, Recipient(to)) then Abort(Disputed)
    else if !tx.governanceOk then Abort(GovernanceVersionTooLow)
    else if l.program.None? then Abort(NotInitialized)
    else if l.program.value.payoutKey !in tx.auth then Abort(NotSigned)
    else if !Payable(l, to) then Abort(NotWhitelisted)
    else if amount <= 0 then Abort(NonPositiveAmount)
    else if amount > l.program.value.remaining then Abort(InsufficientBalance)
    else
      var p := l.program.value;
      match Transfer(l.balances, l.self, to, amount)
      case None => Abort(TransferFailed)
      case Some(balances) =>
        // The alert threshold is computed with overflow checks after the transfer.
        if !FitsI128(p.totalFunds * l.settings.largePayoutBps) then Abort(Overflow)
        else
          var p' := p.(remaining := p.remaining - amount, payouts := p.payouts + [PayoutRecord(to, amount, tx.now)]);
          Commit(l.(program := Some(p'), balances := balances, breaker := B.OnSuccess(l.breaker)))
  }

  /** Adding up the first `k` amounts, each of which must be positive, with `i128::checked_add`. */
  function CheckedTotal(amounts: seq<I128>, k: nat): Outcome<I128, Fault>
    requires k <= |amounts|
  {
    if k == 0 then Commit(0)
    else
      match CheckedTotal(amounts, k - 1)
      case Abort(e) => Abort(e)
      case Commit(total) =>
        if amounts[k - 1] <= 0 then Abort(NonPositiveAmount)
        else if !FitsI128(total + amounts[k - 1]) then Abort(Overflow)
        else Commit(total + amounts[k - 1])
  }

  /** The history entries of the first `k` payouts. */
  function Records(tos: seq<Address>, amounts: seq<I128>, now: U64, k: nat): seq<PayoutRecord>
    requires k <= |tos| == |amounts|
  {
    seq(k, i requires 0 <= i < k => PayoutRecord(tos[i], amounts[i], now))
  }

  function BatchPayout(l: Ledger, tx: Tx, tos: seq<Address>, amounts: seq<I128>): Outcome<Ledger, Fault> {
    if !B.Allows(l.breaker) then Abort(CircuitOpen)
    else if l.settings.releasePaused then Abort(Paused)
    else if IsOpen(l, Everyone) then Abort(Disputed)
    else if !tx.governanceOk then Abort(GovernanceVersionTooLow)
    else if l.program.None? then Abort(NotInitialized)
    else if l.program.value.payoutKey !in tx.auth then Abort(NotSigned)
    else if exists i :: 0 <= i < |tos| && !Payable(l, tos[i]) then Abort(NotWhitelisted)
    else if |tos| != |amounts| then Abort(LengthMismatch)
    else if |tos| == 0 then Abort(EmptyBatch)
    else if |tos| > MAX_BATCH_SIZE then Abort(BatchTooLarge)
    else if exists i :: 0 <= i < |tos| && IsOpen(l, Recipient(tos[i])) then Abort(Disputed)
    else
      var p := l.program.value;
      var n := |tos|;
      match CheckedTotal(amounts, n)
      case Abort(e) => Abort(e)
      case Commit(total) =>
        if total > p.remaining then Abort(InsufficientBalance)
        else if !FitsI128(p.remaining - total) then Abort(Overflow)
        else
          match TransferAll(l.balances, l.self, tos, amounts, n)
          case None => Abort(TransferFailed)
          case Some(balances) =>
            var p' := p.(remaining := p.remaining - total, payouts := p.payouts + Records(tos, amounts, tx.now, n));
            Commit(l.(program := Some(p'), balances := balances, breaker := B.OnSuccess(l.breaker)))
  }

  // ---------------------------------------------------------------------------------------------
  // Release schedules
  // ---------------------------------------------------------------------------------------------

  function CreateSchedule(l: Ledger, tx: Tx, amount: I128, releaseTime: U64, recipient: Address)
    : Outcome<Ledger, Fault>
  {
    if l.program.None? then Abort(NotInitialized)
    else if l.program.value.payoutKey !in tx.auth then Abort(NotSigned)
    else if amount <= 0 then Abort(NonPositiveAmount)
    else if !Payable(l, recipient) then Abort(NotWhitelisted)
    else if l.nextId == U64_MAX then Abort(Overflow)
    else
      var s := Schedule(l.nextId, recipient, amount, releaseTime, false, None, None);
      Commit(l.(schedules := l.schedules + [s], nextId := l.nextId + 1))
  }

  /** What all three release routes do to one schedule. */
  function ReleaseAt(l: Ledger, i: nat, now: U64, releaser: Address, kind: ReleaseType): (r: Outcome<Ledger, Fault>)
    requires l.program.Some? && i < |l.schedules|
    ensures r.Commit? ==> r.state.program.Some? && |r.state.schedules| == |l.schedules|
  {
    var s, p := l.schedules[i], l.program.value;
    match Transfer(l.balances, l.self, s.recipient, s.amount)
    case None => Abort(TransferFailed)
    case Some(balances) =>
      if !FitsI128(p.remaining - s.amount) then Abort(Overflow)
      else
        Commit(l.(program := Some(p.(remaining := p.remaining - s.amount)),
                  schedules := l.schedules[i := s.(released := true, releasedAt := Some(now),
                      releasedBy := Some(releaser))],
                  releases := l.releases + [Release(s.id, s.recipient, s.amount, now, kind)],
                  balances := balances))
  }

  /** A triggered release also checks the remaining balance and is noted as a payout. */
  function TriggerAt(l: Ledger, i: nat, now: U64): (r: Outcome<Ledger, Fault>)
    requires l.program.Some? && i < |l.schedules|
    ensures r.Commit? ==> r.state.program.Some? && |r.state.schedules| == |l.schedules|
  {
    var s := l.schedules[i];
    if s.amount > l.program.value.remaining then Abort(InsufficientBalance)
    else
      match ReleaseAt(l, i, now, l.self, Automatic)
      case Abort(e) => Abort(e)
      case Commit(m) =>
        var p := m.program.value;
        Commit(m.(program := Some(p.(payouts := p.payouts + [PayoutRecord(s.recipient, s.amount, now)]))))
  }

  predicate InRange(l: Ledger, ids: seq<nat>) {
    forall k :: 0 <= k < |ids| ==> ids[k] < |l.schedules|
  }

  /** Triggered releases of the schedules at the given indices, in that order. */
  function TriggerEach(l: Ledger, indices: seq<nat>, now: U64): (r: Outcome<Ledger, Fault>)
    requires l.program.Some? && InRange(l, indices)
    ensures r.Commit? ==> r.state.program.Some? && |r.state.schedules| == |l.schedules|
  {
    if indices == [] then Commit(l)
    else
      var n := |indices| - 1;
      match TriggerEach(l, indices[..n], now)
      case Abort(e) => Abort(e)
      case Commit(m) => TriggerAt(m, indices[n], now)
  }

  /** The longest leading part of a row of releases that goes through. */
  function PaidRow(l: Ledger, indices: seq<nat>, now: U64): (r: seq<nat>)
    requires l.program.Some? && InRange(l, indices)
    ensures r <= indices && InRange(l, r) && TriggerEach(l, r, now).Commit?
    decreases |indices|
  {
    if TriggerEach(l, indices, now).Commit? then indices else PaidRow(l, indices[..|indices| - 1], now)
  }

  predicate Eligible(l: Ledger, now: U64, i: nat)
    requires i < |l.schedules|
  {
    var s := l.schedules[i];
    !s.released && now >= s.releaseTime && !ScopeDisputed(l, s.id, s.recipient) && Payable(l, s.recipient)
  }

  /** The eligible indices below `k`, in order. */
  function EligibleBelow(l: Ledger, now: U64, k: nat): (r: seq<nat>)
    requires k <= |l.schedules|
    ensures InRange(l, r)
  {
    if k == 0 then []
    else EligibleBelow(l, now, k - 1) + if Eligible(l, now, k - 1) then [k - 1] else []
  }

  function AllEligible(l: Ledger, now: U64): (r: seq<nat>)
    ensures InRange(l, r)
  {
    EligibleBelow(l, now, |l.schedules|)
  }

  /** The schedules one trigger call takes: the first hundred eligible ones. */
  function Selected(l: Ledger, now: U64): (r: seq<nat>)
    ensures InRange(l, r)
  {
    var all := AllEligible(l, now);
    if |all| <= MAX_BATCH_SIZE then all else all[..MAX_BATCH_SIZE]
  }

  function Trigger(l: Ledger, tx: Tx): Outcome<Ledger, Fault> {
    if !B.Allows(l.breaker) then Abort(CircuitOpen)
    else if IsOpen(l, Everyone) then Abort(Disputed)
    else if l.program.None? then Abort(NotInitialized)
    else if l.program.value.payoutKey !in tx.auth then Abort(NotSigned)
    else
      match TriggerEach(l, Selected(l, tx.now), tx.now)
      case Abort(e) => Abort(e)
      case Commit(m) => Commit(if Selected(l, tx.now) == [] then m else m.(breaker := B.OnSuccess(m.breaker)))
  }

  predicate ReleasesOpen(l: Ledger, tx: Tx) {
    && B.Allows(l.breaker) && !IsOpen(l, Everyone)
    && l.program.Some? && l.program.value.payoutKey in tx.auth
  }

  /** What a trigger call has written when its loop panics: the tokens of the releases before that one
      are gone, a shortage is recorded, and nothing else is stored yet. */
  function StoppedTrigger(l: Ledger, e: Fault, now: U64): Ledger
    requires l.program.Some?
  {
    l.(balances := TriggerEach(l, PaidRow(l, Selected(l, now), now), now).state.balances,
       breaker := if e == InsufficientBalance then WithShortage(l, "trg_rels", now) else l.breaker)
  }

  /** How the body of a trigger call ends, before the host keeps or discards its writes. */
  predicate RanTrigger(before: Ledger, after: Ledger, panic: Option<Fault>, tx: Tx) {
    match Trigger(before, tx)
    case Commit(m) => after == m && panic == None
    case Abort(e) =>
      panic == Some(e) && after == if ReleasesOpen(before, tx) then StoppedTrigger(before, e, tx.now) else before
  }

  /** The position of the first schedule with this id, or the number of schedules. */
  function IndexOf(schedules: seq<Schedule>, id: U64): (i: nat)
    ensures i <= |schedules|
    ensures i < |schedules| ==> schedules[i].id == id
    ensures forall k :: 0 <= k < i ==> schedules[k].id != id
  {
    if schedules == [] then 0
    else if schedules[0].id == id then 0
    else 1 + IndexOf(schedules[1..], id)
  }

  /** The manual release and the automatic one, which differ in the due check and the releaser. */
  function ReleaseOne(l: Ledger, tx: Tx, id: U64, kind: ReleaseType): Outcome<Ledger, Fault> {
    if !B.Allows(l.breaker) then Abort(CircuitOpen)
    else if l.program.None? then Abort(NotInitialized)
    else if l.program.value.payoutKey !in tx.auth then Abort(NotSigned)
    else
      var i := IndexOf(l.schedules, id);
      if i == |l.schedules| then Abort(ScheduleNotFound)
      else
        var s := l.schedules[i];
        if s.released then Abort(AlreadyReleased)
        else if kind == Automatic && tx.now < s.releaseTime then Abort(NotYetDue)
        else if IsOpen(l, Everyone) || ScopeDisputed(l, id, s.recipient) then Abort(Disputed)
        else if !Payable(l, s.recipient) then Abort(NotWhitelisted)
        else
          match ReleaseAt(l, i, tx.now, if kind == Manual then l.program.value.payoutKey else l.self, kind)
          case Abort(e) => Abort(e)
          case Commit(m) => Commit(m.(breaker := B.OnSuccess(m.breaker)))
  }

  // ---------------------------------------------------------------------------------------------
  // Disputes and administration
  // ---------------------------------------------------------------------------------------------

  function AdminGate(l: Ledger, tx: Tx): Option<Fault> {
    if l.settings.admin.None? then Some(AdminNotSet)
    else if l.settings.admin.value !in tx.auth then Some(NotSigned)
    else None
  }

  function OpenDispute(l: Ledger, tx: Tx, scope: Scope): Outcome<Ledger, Fault> {
    if scope.OneSchedule? && IndexOf(l.schedules, scope.id) == |l.schedules| then Abort(ScheduleNotFound)
    else if AdminGate(l, tx).Some? then Abort(AdminGate(l, tx).value)
    else if IsOpen(l, scope) then Abort(DisputeAlreadyOpen)
    else if l.program.None? then Abort(NotInitialized)
    else
      var record := DisputeRecord(l.settings.admin.value, tx.now, DisputeOpen, None, None);
      Commit(l.(disputes := l.disputes[scope := record]))
  }

  /** Resolving and cancelling differ only in the status they leave. */
  function CloseDispute(l: Ledger, tx: Tx, scope: Scope, resolved: bool): Outcome<Ledger, Fault> {
    if AdminGate(l, tx).Some? then Abort(AdminGate(l, tx).value)
    else if scope !in l.disputes then Abort(NoDispute)
    else if l.disputes[scope].status != DisputeOpen then Abort(NoOpenDispute)
    else if l.program.None? then Abort(NotInitialized)
    else
      var record := l.disputes[scope].(status := if resolved then DisputeResolved else DisputeCancelled,
                                       closedBy := l.settings.admin,
                                       closedAt := Some(tx.now));
      Commit(l.(disputes := l.disputes[scope := record]))
  }

  /** Whether `caller` signed and is the breaker's administrator. */
  function BreakerGate(l: Ledger, tx: Tx, caller: Address): Option<Fault> {
    if caller !in tx.auth then Some(NotSigned)
    else if l.breaker.admin != Some(caller) then Some(NotBreakerAdmin)
    else None
  }

  /** The contract's administrator names the first breaker administrator, who then hands over. */
  function SetBreakerAdmin(l: Ledger, tx: Tx, admin: Address, caller: Option<Address>): Outcome<Ledger, Fault> {
    if l.breaker.admin.None? && AdminGate(l, tx).Some? then Abort(AdminGate(l, tx).value)
    else
      match B.NewAdmin(l.breaker, tx.auth, admin, caller)
      case Abort(_) => Abort(NotBreakerAdmin)
      case Commit(b) => Commit(l.(breaker := b))
  }

  function ForceOpenBreaker(l: Ledger, tx: Tx, caller: Address): Outcome<Ledger, Fault> {
    if BreakerGate(l, tx, caller).Some? then Abort(BreakerGate(l, tx, caller).value)
    else Commit(l.(breaker := B.Opened(l.breaker, tx.now)))
  }

  function ResetBreaker(l: Ledger, tx: Tx, caller: Address): Outcome<Ledger, Fault> {
    if BreakerGate(l, tx, caller).Some? then Abort(BreakerGate(l, tx, caller).value)
    else Commit(l.(breaker := B.Reset(l.breaker)))
  }

  function ConfigureBreaker(l: Ledger, tx: Tx, caller: Address, cfg: B.Config): Outcome<Ledger, Fault> {
    if cfg.failureThreshold == 0 then Abort(ZeroThreshold)
    else if BreakerGate(l, tx, caller).Some? then Abort(BreakerGate(l, tx, caller).value)
    else Commit(l.(breaker := l.breaker.(cfg := cfg)))
  }

  /** A token transfer by someone else, which this contract takes no part in. */
  function OutsideTransfer(l: Ledger, from: Address, to: Address, amount: I128): Outcome<Ledger, Fault> {
    if from == l.self then Abort(NotSigned)
    else
      match Transfer(l.balances, from, to, amount)
      case None => Abort(TransferFailed)
      case Some(balances) => Commit(l.(balances := balances))
  }
}
