/** The three-state circuit breaker and the retry helper built on it (error_recovery.rs). */
module CircuitBreaker {
  import opened Prelude

  datatype CircuitState = Closed | Open | HalfOpen

  datatype Config = Config(failureThreshold: U32, successThreshold: U32, maxErrorLog: U32)

  const DEFAULT_CONFIG := Config(3, 1, 10)

  const ERR_NONE: U32 := 0
  const ERR_CIRCUIT_OPEN: U32 := 1001
  const ERR_INSUFFICIENT_BALANCE: U32 := 1003

  datatype ErrorEntry = ErrorEntry(operation: string, programId: string, code: U32, timestamp: U64, failureCount: U32)

  datatype Breaker = Breaker(
    state: CircuitState,
    failures: U32,
    successes: nat,
    lastFailure: U64,
    openedAt: U64,
    log: seq<ErrorEntry>,
    cfg: Config,
    admin: Option<Address>)

  datatype Fault = CountOverflow | Unauthorized

  function Fresh(cfg: Config): Breaker {
    Breaker(Closed, 0, 0, 0, 0, [], cfg, None)
  }

  predicate Allows(b: Breaker) {
    b.state != Open
  }

  function Opened(b: Breaker, now: U64): Breaker {
    b.(state := Open, openedAt := now, successes := 0)
  }

  function HalfOpened(b: Breaker): Breaker {
    b.(state := HalfOpen, successes := 0)
  }

  function ClosedAgain(b: Breaker): Breaker {
    b.(state := Closed, failures := 0, successes := 0, openedAt := 0)
  }

  function Reset(b: Breaker): Breaker {
    if b.state == Open then HalfOpened(b) else ClosedAgain(b)
  }

  /** Only the registered administrator, with its signature, may reset. */
  function ResetBy(b: Breaker, auth: set<Address>, caller: Address): Outcome<Breaker, Fault> {
    if b.admin == Some(caller) && caller in auth then Commit(Reset(b)) else Abort(Unauthorized)
  }

  /** The first administrator is anyone's to name; afterwards only the present one hands over. */
  function NewAdmin(b: Breaker, auth: set<Address>, admin: Address, caller: Option<Address>): Outcome<Breaker, Fault> {
    if b.admin.Some? && !(caller == b.admin && b.admin.value in auth) then Abort(Unauthorized)
    else Commit(b.(admin := Some(admin)))
  }

  function OnSuccess(b: Breaker): Breaker {
    match b.state
    case Closed => b.(failures := 0, successes := 0)
    case HalfOpen =>
      if b.successes + 1 >= b.cfg.successThreshold then ClosedAgain(b)
      else b.(successes := b.successes + 1)
    case Open => b
  }

  /** The newest `n` entries, oldest first. */
  function Newest<T>(s: seq<T>, n: nat): seq<T> {
    if |s| <= n then s else s[|s| - n..]
  }

  /** The entry a failure leaves behind. */
  function Entry(b: Breaker, operation: string, programId: string, code: U32, now: U64): ErrorEntry
    requires b.failures < U32_MAX
  {
    ErrorEntry(operation, programId, code, now, b.failures + 1)
  }

  function OnFailure(b: Breaker, operation: string, programId: string, code: U32, now: U64): Outcome<Breaker, Fault> {
    if b.failures == U32_MAX then Abort(CountOverflow)
    else
      var entry := Entry(b, operation, programId, code, now);
      var noted := b.(failures := b.failures + 1, lastFailure := now,
          log := Newest(b.log + [entry], b.cfg.maxErrorLog));
      Commit(if noted.failures >= b.cfg.failureThreshold then Opened(noted, now) else noted)
  }

  datatype RetryResult = RetryResult(succeeded: bool, attempts: nat, finalError: U32)

  /** What retrying does from the point where `attempts` tries have been made and `left` remain.
      `op(i)` is the answer of the operation's i-th call: `None` for success, else an error code. */
  function Retry(b: Breaker, left: nat, op: nat -> Option<U32>, operation: string, programId: string, now: U64,
                 attempts: nat, lastError: U32): Outcome<(Breaker, RetryResult), Fault>
    decreases left
  {
    if left == 0 then Commit((b, RetryResult(false, attempts, lastError)))
    else if !Allows(b) then Commit((b, RetryResult(false, attempts, ERR_CIRCUIT_OPEN)))
    else
      match op(attempts)
      case None => Commit((OnSuccess(b), RetryResult(true, attempts + 1, ERR_NONE)))
      case Some(code) =>
        match OnFailure(b, operation, programId, code, now)
        case Abort(e) => Abort(e)
        case Commit(b') => Retry(b', left - 1, op, operation, programId, now, attempts + 1, code)
  }

  class ErrorRecovery {
    var state: CircuitState
    var failures: U32
    var successes: nat
    var lastFailure: U64
    var openedAt: U64
    var log: seq<ErrorEntry>
    var cfg: Config
    var admin: Option<Address>

    function View(): Breaker
      reads this
    {
      Breaker(state, failures, successes, lastFailure, openedAt, log, cfg, admin)
    }

    constructor ()
      ensures View() == Fresh(DEFAULT_CONFIG)
    {
      state, failures, successes, lastFailure, openedAt := Closed, 0, 0, 0, 0;
      log, cfg, admin := [], DEFAULT_CONFIG, None;
    }

    /** What the host does to this storage when a transaction panics. */
    method Restore(stored: Breaker)
      modifies this
      ensures View() == stored
    {
      state, failures, successes, lastFailure := stored.state, stored.failures, stored.successes, stored.lastFailure;
      openedAt, log, cfg, admin := stored.openedAt, stored.log, stored.cfg, stored.admin;
    }

    method CheckAndAllow() returns (rejected: Option<U32>)
      ensures rejected == if Allows(View()) then None else Some(ERR_CIRCUIT_OPEN)
    {
      match state
      case Open => rejected := Some(ERR_CIRCUIT_OPEN);
      case Closed => rejected := None;
      case HalfOpen => rejected := None;
    }

    method OpenCircuit(now: U64)
      modifies this
      ensures View() == Opened(old(View()), now)
    {
      state, openedAt, successes := Open, now, 0;
    }

    method HalfOpenCircuit()
      modifies this
      ensures View() == HalfOpened(old(View()))
    {
      state, successes := HalfOpen, 0;
    }

    method CloseCircuit()
      modifies this
      ensures View() == ClosedAgain(old(View()))
    {
      state, failures, successes, openedAt := Closed, 0, 0, 0;
    }

    method SetCircuitAdmin(auth: set<Address>, newAdmin: Address, caller: Option<Address>)
      returns (failure: Option<Fault>)
      modifies this`admin
      ensures Follows(old(View()), View(), failure, NewAdmin(old(View()), auth, newAdmin, caller))
    {
      if admin.Some? {
        if caller != admin || admin.value !in auth {
          return Some(Unauthorized);
        }
      }
      admin := Some(newAdmin);
      return None;
    }

    method ResetCircuitBreaker(auth: set<Address>, caller: Address) returns (failure: Option<Fault>)
      modifies this
      ensures Follows(old(View()), View(), failure, ResetBy(old(View()), auth, caller))
    {
      if admin != Some(caller) || caller !in auth {
        return Some(Unauthorized);
      }
      match state {
        case Open => HalfOpenCircuit();
        case HalfOpen => CloseCircuit();
        case Closed => CloseCircuit();
      }
      return None;
    }

    method RecordSuccess()
      modifies this
      ensures View() == OnSuccess(old(View()))
    {
      match state
      case Closed =>
        failures, successes := 0, 0;
      case HalfOpen =>
        successes := successes + 1;
        if successes >= cfg.successThreshold {
          CloseCircuit();
        }
      case Open =>
    }

    method RecordFailure(operation: string, programId: string, code: U32, now: U64) returns (failure: Option<Fault>)
      modifies this
      ensures Follows(old(View()), View(), failure, OnFailure(old(View()), operation, programId, code, now))
    {
      if failures == U32_MAX {
        return Some(CountOverflow);
      }
      failures, lastFailure := failures + 1, now;
      var entries := log + [ErrorEntry(operation, programId, code, now, failures)];
      ghost var all := entries;
      while |entries| > cfg.maxErrorLog
        invariant |entries| <= |all| && entries == all[|all| - |entries|..]
        invariant |entries| >= cfg.maxErrorLog || entries == all
      {
        entries := entries[1..];
      }
      log := entries;
      if failures >= cfg.failureThreshold {
        OpenCircuit(now);
      }
      return None;
    }

    method ExecuteWithRetry(maxAttempts: U32, op: nat -> Option<U32>, operation: string, programId: string, now: U64)
      returns (failure: Option<Fault>, result: RetryResult)
      modifies this
      ensures match Retry(old(View()), maxAttempts, op, operation, programId, now, 0, ERR_NONE)
              case Commit((b, r)) => failure == None && View() == b && result == r
              case Abort(e) => failure == Some(e) && View() == old(View())
    {
      var before := View();
      var attempts, lastError := 0, ERR_NONE;
      result := RetryResult(false, 0, ERR_NONE);
      for i := 0 to maxAttempts
        invariant attempts == i
        invariant Retry(before, maxAttempts, op, operation, programId, now, 0, ERR_NONE)
               == Retry(View(), maxAttempts - i, op, operation, programId, now, attempts, lastError)
      {
        var rejected := CheckAndAllow();
        if rejected.Some? {
          return None, RetryResult(false, attempts, rejected.value);
        }
        var answer := op(attempts);
        attempts := attempts + 1;
        if answer.None? {
          RecordSuccess();
          return None, RetryResult(true, attempts, ERR_NONE);
        }
        lastError := answer.value;
        var fault := RecordFailure(operation, programId, lastError, now);
        if fault.Some? {
          Restore(before);
          return fault, result;
        }
      }
      return None, RetryResult(false, attempts, lastError);
    }
  }

  // ---------------------------------------------------------------------------------------------
  // Retrying
  // ---------------------------------------------------------------------------------------------

  /** How many consecutive failures the breaker tolerates before it is open. */
  function Budget(b: Breaker): nat {
    if b.state == Open then 0 else Max(1, b.cfg.failureThreshold - b.failures)
  }

  /** The failure counter can take one more failure, or will open first. */
  predicate Countable(b: Breaker) {
    b.failures < U32_MAX
  }

  /** Main result: from any breaker state retrying succeeds exactly when the first success comes
      within the first min(left, budget) calls. */
  lemma {:induction false} RetrySucceeds(b: Breaker, left: nat, op: nat -> Option<U32>, operation: string,
                                         programId: string, now: U64, attempts: nat, lastError: U32, hit: nat)
    requires Countable(b) && attempts <= hit && op(hit).None?
    requires forall i :: attempts <= i < hit ==> op(i).Some?
    requires hit - attempts < Min(left, Budget(b))
    ensures
      var r := Retry(b, left, op, operation, programId, now, attempts, lastError);
      && r.Commit? && r.state.1 == RetryResult(true, hit + 1, 0) && Allows(r.state.0)
      && (b.state == Closed ==> r.state.0.state == Closed && r.state.0.failures == 0)
    decreases left
  {
    if attempts == hit {
    } else {
      var b' := OnFailure(b, operation, programId, op(attempts).value, now).state;
      RetrySucceeds(b', left - 1, op, operation, programId, now, attempts + 1, op(attempts).value, hit);
    }
  }

  /** Main result: an operation that keeps failing is called exactly min(left, budget) times. The
      circuit is what stopped it, and is reported, exactly when there were more attempts left than
      the budget. */
  lemma {:induction false} RetryExhausts(b: Breaker, left: nat, op: nat -> Option<U32>, operation: string,
                                         programId: string, now: U64, attempts: nat, lastError: U32)
    requires Countable(b)
    requires forall i :: attempts <= i < attempts + Min(left, Budget(b)) ==> op(i).Some?
    ensures
      var k := Min(left, Budget(b));
      var r := Retry(b, left, op, operation, programId, now, attempts, lastError);
      && r.Commit?
      && r.state.1 == RetryResult(false, attempts + k,
                                  if left > Budget(b) then 1001
                                  else if k == 0 then lastError else op(attempts + k - 1).value)
      && r.state.0.failures == b.failures + k
      && (r.state.0.state == Open <==> left >= Budget(b))
    decreases left
  {
    if left == 0 || !Allows(b) {
    } else {
      var code := op(attempts).value;
      var b' := OnFailure(b, operation, programId, code, now).state;
      if b'.state == Open {
        assert Budget(b) == 1;
      } else {
        RetryExhausts(b', left - 1, op, operation, programId, now, attempts + 1, code);
      }
    }
  }

  // ---------------------------------------------------------------------------------------------
  // Runs of the breaker under one configuration
  // ---------------------------------------------------------------------------------------------

  datatype Event =
    | Succeeded
    | Failed(operation: string, programId: string, code: U32, now: U64)
    | ForcedOpen(at: U64)
    | AdminReset

  function Apply(b: Breaker, e: Event): Breaker {
    match e
    case Succeeded => OnSuccess(b)
    case Failed(operation, programId, code, now) =>
      var r := OnFailure(b, operation, programId, code, now);
      if r.Commit? then r.state else b
    case ForcedOpen(at) => Opened(b, at)
    case AdminReset => Reset(b)
  }

  function Run(b: Breaker, es: seq<Event>): Breaker {
    if es == [] then b else Apply(Run(b, es[..|es| - 1]), es[|es| - 1])
  }

  /** The length of the unbroken row of failures at the end of a run. */
  function Streak(es: seq<Event>): nat {
    if es == [] || !es[|es| - 1].Failed? then 0 else 1 + Streak(es[..|es| - 1])
  }

  /** Main result: while closed, the counter is the row of failures since anything else happened,
      and that row is below the threshold. */
  lemma {:induction false} ClosedCountsStreak(cfg: Config, es: seq<Event>)
    requires cfg.failureThreshold >= 1
    ensures
      var b := Run(Fresh(cfg), es);
      && b.cfg == cfg
      && (b.state == Closed ==> b.failures == Streak(es) < cfg.failureThreshold)
      && b.successes <= Max(1, cfg.successThreshold)
  {
    if es == [] {
    } else {
      ClosedCountsStreak(cfg, es[..|es| - 1]);
    }
  }

  /** Main result: a failure opens a closed circuit exactly when the row reaches the threshold. */
  lemma OpensExactlyAtThreshold(cfg: Config, es: seq<Event>, failed: Event)
    requires cfg.failureThreshold >= 1 && failed.Failed?
    requires Run(Fresh(cfg), es).state == Closed
    ensures Run(Fresh(cfg), es + [failed]).state == Open <==> Streak(es + [failed]) == cfg.failureThreshold
  {
    ClosedCountsStreak(cfg, es);
    assert (es + [failed])[..|es|] == es;
  }

  /** No intermediate state of the run is closed. */
  predicate NeverClosed(b: Breaker, es: seq<Event>) {
    forall k :: 0 <= k <= |es| ==> Run(b, es[..k]).state != Closed
  }

  /** Once the threshold has been reached it stays reached until the circuit is closed ... */
  lemma {:induction false} TrippedUntilClosed(b: Breaker, es: seq<Event>)
    requires b.failures >= b.cfg.failureThreshold && NeverClosed(b, es)
    ensures Run(b, es).failures >= b.cfg.failureThreshold && Run(b, es).cfg == b.cfg
  {
    if es == [] {
    } else {
      var before := es[..|es| - 1];
      assert forall k :: 0 <= k <= |before| ==> before[..k] == es[..k];
      TrippedUntilClosed(b, before);
      assert es[..|es|] == es;
      assert Run(b, before).state != Closed;
    }
  }

  lemma RunOneMore(b: Breaker, es: seq<Event>, e: Event)
    ensures Run(b, es + [e]) == Apply(Run(b, es), e)
  {
    assert (es + [e])[..|es|] == es;
  }

  /** ... so a circuit that failures tripped re-opens on any failure while half open. The history
      is `es` (ending closed), the tripping failure, then `later`. */
  lemma TrippedCircuitReopens(cfg: Config, es: seq<Event>, trip: Event, later: seq<Event>, again: Event)
    requires cfg.failureThreshold >= 1 && trip.Failed? && again.Failed?
    requires Run(Fresh(cfg), es).state == Closed && Run(Fresh(cfg), es + [trip]).state == Open
    requires NeverClosed(Run(Fresh(cfg), es + [trip]), later)
    requires Run(Run(Fresh(cfg), es + [trip]), later).state == HalfOpen
    requires Run(Run(Fresh(cfg), es + [trip]), later).failures < U32_MAX
    ensures Apply(Run(Run(Fresh(cfg), es + [trip]), later), again).state == Open
  {
    ClosedCountsStreak(cfg, es);
    RunOneMore(Fresh(cfg), es, trip);
    TrippingReachesThreshold(Run(Fresh(cfg), es), trip);
    var tripped := Run(Fresh(cfg), es + [trip]);
    TrippedUntilClosed(tripped, later);
    FailureAtThresholdOpens(Run(tripped, later), again);
  }

  lemma TrippingReachesThreshold(b: Breaker, trip: Event)
    requires b.state == Closed && trip.Failed? && Apply(b, trip).state == Open
    ensures Apply(b, trip).failures >= Apply(b, trip).cfg.failureThreshold
  {
  }

  lemma FailureAtThresholdOpens(b: Breaker, again: Event)
    requires again.Failed? && b.failures < U32_MAX && b.failures >= b.cfg.failureThreshold
    ensures Apply(b, again).state == Open
  {
  }

  predicate AllFailed(es: seq<Event>) {
    forall i :: 0 <= i < |es| ==> es[i].Failed?
  }

  lemma {:induction false} FailuresAddUp(b: Breaker, es: seq<Event>)
    requires AllFailed(es) && b.state == HalfOpen && b.cfg.failureThreshold >= 1
    ensures var r := Run(b, es);
      && r.cfg == b.cfg
      && r.failures == Min(b.failures + |es|, U32_MAX)
      && r.state == if es != [] && b.failures + |es| >= b.cfg.failureThreshold && b.failures < U32_MAX
          then Open else HalfOpen
  {
    if es == [] {
    } else {
      FailuresAddUp(b, es[..|es| - 1]);
    }
  }

  /** Main result: what a circuit forced open re-opens on. If failures had been counted in a row
      when the administrator forced it open and then half-opened it, the failures that follow
      re-open it exactly when they and those before reach the threshold together. */
  lemma ForcedCircuitReopensAtThreshold(cfg: Config, es: seq<Event>, at: U64, fails: seq<Event>)
    requires cfg.failureThreshold >= 1 && Run(Fresh(cfg), es).state == Closed && AllFailed(fails)
    ensures var half := Run(Fresh(cfg), es + [ForcedOpen(at)] + [AdminReset]);
      Run(half, fails).state
      == if fails != [] && Streak(es) + |fails| >= cfg.failureThreshold then Open else HalfOpen
  {
    ClosedCountsStreak(cfg, es);
    RunOneMore(Fresh(cfg), es, ForcedOpen(at));
    RunOneMore(Fresh(cfg), es + [ForcedOpen(at)], AdminReset);
    FailuresAddUp(Run(Fresh(cfg), es + [ForcedOpen(at)] + [AdminReset]), fails);
  }

  /** Successes recorded one after the other. */
  function Successes(b: Breaker, k: nat): Breaker {
    if k == 0 then b else OnSuccess(Successes(b, k - 1))
  }

  /** Main result: a half-opened circuit closes with the success that meets the success threshold,
      not before and with clean counters; it never opens on a success. */
  lemma {:induction false} RecoversAfterSuccesses(b: Breaker, k: nat)
    ensures var h := Successes(HalfOpened(b), k);
      if k < Max(1, b.cfg.successThreshold)
      then h == HalfOpened(b).(successes := k)
      else h == ClosedAgain(b)
  {
    if k == 0 {
    } else {
      RecoversAfterSuccesses(b, k - 1);
    }
  }

  /** Main result: two resets in a row close any circuit with clean counters; one does unless it is
      open, in which case it half-opens it and keeps the count of failures. */
  lemma ResetTwiceCloses(b: Breaker)
    ensures Apply(b, AdminReset) == if b.state == Open then b.(state := HalfOpen, successes := 0)
                                    else b.(state := Closed, failures := 0, successes := 0, openedAt := 0)
    ensures Run(b, [AdminReset, AdminReset]) == b.(state := Closed, failures := 0, successes := 0, openedAt := 0)
  {
    var es := [AdminReset, AdminReset];
    assert es[..1] == [AdminReset] && es[..1][..0] == [];
    assert Run(b, es[..1]) == Apply(b, AdminReset);
  }

  /** Main result: exactly the registered administrator can reset, with its signature; anybody can name
      the first administrator, and after that exactly the present one its successor. */
  lemma AdministrationExact(b: Breaker, auth: set<Address>, caller: Address, admin: Address, holder: Option<Address>)
    ensures ResetBy(b, auth, caller).Commit? <==> b.admin == Some(caller) && caller in auth
    ensures ResetBy(b, auth, caller).Commit? ==> ResetBy(b, auth, caller).state == Apply(b, AdminReset)
    ensures NewAdmin(b, auth, admin, holder).Commit? <==>
              b.admin == None || (holder == b.admin && b.admin.value in auth)
    ensures NewAdmin(b, auth, admin, holder).Commit? ==>
              NewAdmin(b, auth, admin, holder).state == b.(admin := Some(admin))
  {
  }

  /** The time of the last failure of a run, or zero. */
  function LastFailureTime(es: seq<Event>): U64 {
    if es == [] then 0
    else if es[|es| - 1].Failed? then es[|es| - 1].now else LastFailureTime(es[..|es| - 1])
  }

  /** Main result: the recorded time of the last failure is that of the last failure of the run; a
      closed circuit has no opening time, and one that opens gets the time of the event. */
  lemma {:induction false} TimesAreRecorded(cfg: Config, es: seq<Event>)
    requires |es| < U32_MAX
    ensures var b := Run(Fresh(cfg), es);
      && b.failures <= |es|
      && b.lastFailure == LastFailureTime(es)
      && (b.state == Closed ==> b.openedAt == 0)
    ensures es != [] && Run(Fresh(cfg), es).state == Open && Run(Fresh(cfg), es[..|es| - 1]).state != Open ==>
              Run(Fresh(cfg), es).openedAt
              == match es[|es| - 1] case Failed(_, _, _, now) => now case ForcedOpen(at) => at case _ => 0
  {
    if es == [] {
    } else {
      TimesAreRecorded(cfg, es[..|es| - 1]);
    }
  }

  /** What an event writes into the log: for a failure, its own data and the count it reached. */
  function WrittenBy(b: Breaker, e: Event): seq<ErrorEntry> {
    if e.Failed? && b.failures < U32_MAX
    then [ErrorEntry(e.operation, e.programId, e.code, e.now, b.failures + 1)] else []
  }

  /** Every entry any failure of the run has written, in order. */
  function Written(b: Breaker, es: seq<Event>): seq<ErrorEntry> {
    if es == [] then []
    else Written(b, es[..|es| - 1]) + WrittenBy(Run(b, es[..|es| - 1]), es[|es| - 1])
  }

  lemma NewestOfNewest<T>(s: seq<T>, t: seq<T>, n: nat)
    ensures Newest(Newest(s, n) + t, n) == Newest(s + t, n)
  {
  }

  lemma LogAfter(b: Breaker, e: Event)
    ensures Apply(b, e).cfg == b.cfg
    ensures |b.log| <= b.cfg.maxErrorLog ==> Apply(b, e).log == Newest(b.log + WrittenBy(b, e), b.cfg.maxErrorLog)
  {
  }

  /** `log` is the end of `all`, as much of it as `n` allows. */
  predicate IsEndOf<T(==)>(log: seq<T>, all: seq<T>, n: nat) {
    |log| == Min(|all|, n) && forall i :: 0 <= i < |log| ==> log[i] == all[|all| - |log| + i]
  }

  lemma NewestFits<T>(s: seq<T>, n: nat)
    ensures IsEndOf(Newest(s, n), s, n)
  {
  }

  lemma {:induction false} LogIsNewest(cfg: Config, es: seq<Event>)
    ensures Run(Fresh(cfg), es).cfg == cfg
    ensures Run(Fresh(cfg), es).log == Newest(Written(Fresh(cfg), es), cfg.maxErrorLog)
  {
    if es == [] {
    } else {
      var before, e := es[..|es| - 1], es[|es| - 1];
      LogIsNewest(cfg, before);
      NewestFits(Written(Fresh(cfg), before), cfg.maxErrorLog);
      LogAfter(Run(Fresh(cfg), before), e);
      NewestOfNewest(Written(Fresh(cfg), before), WrittenBy(Run(Fresh(cfg), before), e), cfg.maxErrorLog);
    }
  }

  /** Main result: the log is always the newest entries ever written, as many as it may hold, in order. */
  lemma LogIsNewestEntries(cfg: Config, es: seq<Event>)
    ensures IsEndOf(Run(Fresh(cfg), es).log, Written(Fresh(cfg), es), cfg.maxErrorLog)
  {
    LogIsNewest(cfg, es);
    NewestFits(Written(Fresh(cfg), es), cfg.maxErrorLog);
  }
}
