/** The program escrow contract object: storage fields, entry points and their loops. */
module ProgramEscrow {
  import opened Prelude
  import opened EscrowSpec
  import opened EscrowLoops
  import Spec = EscrowSpec
  import B = CircuitBreaker
  import R = RateLimiter
  import P = Pagination

  class ProgramEscrowContract {
    const self: Address
    var program: Option<Program>
    var schedules: seq<Schedule>
    var releases: seq<Release>
    var nextId: U64
    var disputes: map<Scope, DisputeRecord>
    var settings: Settings
    const errors: B.ErrorRecovery
    const abuse: R.AntiAbuse
    var balances: Balances

    function View(): Ledger
      reads this, errors, abuse
    {
      Ledger(self, program, schedules, releases, nextId, disputes, settings, errors.View(), abuse.exempt,
          abuse.states, balances)
    }

    constructor (self: Address, balances: Balances)
      ensures View() == Deployed(self, balances)
      ensures fresh(errors) && fresh(abuse)
    {
      this.self := self;
      program, schedules, releases, nextId := None, [], [], 1;
      disputes, settings := map[], DEFAULT_SETTINGS;
      errors := new B.ErrorRecovery();
      abuse := new R.AntiAbuse();
      this.balances := balances;
    }

    /** What the host does to a transaction that panics: every write of it is undone. */
    method Rollback(stored: Ledger)
      requires stored.self == self && stored.rateExempt == abuse.exempt
      modifies this, errors, abuse`states
      ensures View() == stored
    {
      program, schedules, releases, nextId := stored.program, stored.schedules, stored.releases, stored.nextId;
      disputes, settings, balances := stored.disputes, stored.settings, stored.balances;
      errors.Restore(stored.breaker);
      abuse.Restore(stored.limits);
    }

    method InitializeProgram(id: string, payoutKey: Address, token: Address) returns (failure: Option<Fault>)
      modifies this
      ensures Follows(old(View()), View(), failure, Spec.Initialize(old(View()), id, payoutKey, token))
    {
      if program.Some? {
        return Some(AlreadyInitialized);
      }
      program, schedules, releases, nextId := Some(Program(id, 0, 0, payoutKey, token, [])), [], [], 1;
      return None;
    }

    method LockProgramFunds(tx: Tx, from: Address, amount: I128) returns (failure: Option<Fault>)
      modifies this, errors, abuse`states
      ensures Follows(old(View()), View(), failure, Spec.Lock(old(View()), tx, from, amount))
    {
      var stored := View();
      failure := LockBody(tx, from, amount);
      if failure.Some? {
        Rollback(stored);
      }
    }

    /** The body may panic after the rate limiter has counted the operation. */
    method LockBody(tx: Tx, from: Address, amount: I128) returns (panic: Option<Fault>)
      modifies this, abuse`states
      ensures RanLock(old(View()), View(), panic, tx, from, amount)
    {
      if from !in tx.auth {
        return Some(NotSigned);
      }
      if settings.lockPaused {
        return Some(Paused);
      }
      var rejected := abuse.CheckRateLimit(from, tx.now, settings.rate);
      if rejected.Some? {
        return Some(RateLimited(rejected.value));
      }
      if amount <= 0 {
        return Some(NonPositiveAmount);
      }
      if program.None? {
        return Some(NotInitialized);
      }
      var data := program.value;
      if settings.maxSingleLock.Some? && amount > settings.maxSingleLock.value {
        return Some(OverSingleCap);
      }
      if settings.maxTotalFunds.Some? {
        if !FitsI128(data.totalFunds + amount) {
          return Some(Overflow);
        }
        if data.totalFunds + amount > settings.maxTotalFunds.value {
          return Some(OverTotalCap);
        }
      }
      var moved := Transfer(balances, from, self, amount);
      if moved.None? {
        return Some(TransferFailed);
      }
      balances := moved.value;
      if !FitsI128(data.totalFunds + amount) || !FitsI128(data.remaining + amount) {
        return Some(Overflow);
      }
      data := data.(totalFunds := data.totalFunds + amount, remaining := data.remaining + amount);
      if Balance(balances, self) < data.remaining {
        return Some(BalanceInvariant);
      }
      program := Some(data);
      return None;
    }

    method SinglePayout(tx: Tx, to: Address, amount: I128) returns (failure: Option<Fault>)
      modifies this, errors, abuse`states
      ensures Follows(old(View()), View(), failure, Spec.SinglePayout(old(View()), tx, to, amount))
    {
      var stored := View();
      failure := SingleBody(tx, to, amount);
      if failure.Some? {
        Rollback(stored);
      }
    }

    method SingleBody(tx: Tx, to: Address, amount: I128) returns (panic: Option<Fault>)
      modifies this, errors
      ensures Ran(old(View()), View(), panic, Spec.SinglePayout(old(View()), tx, to, amount), "sngl_pay", tx.now)
    {
      var rejected := errors.CheckAndAllow();
      if rejected.Some? {
        return Some(CircuitOpen);
      }
      if settings.releasePaused {
        return Some(Paused);
      }
      if IsOpen(View(), Everyone) || IsOpen(View(), Recipient(to)) {
        return Some(Disputed);
      }
      if !tx.governanceOk {
        return Some(GovernanceVersionTooLow);
      }
      if program.None? {
        return Some(NotInitialized);
      }
      var data := program.value;
      if data.payoutKey !in tx.auth {
        return Some(NotSigned);
      }
      if settings.whitelistEnforced && to !in settings.whitelist {
        return Some(NotWhitelisted);
      }
      if amount <= 0 {
        return Some(NonPositiveAmount);
      }
      if amount > data.remaining {
        var _ := errors.RecordFailure("sngl_pay", data.id, B.ERR_INSUFFICIENT_BALANCE, tx.now);
        return Some(InsufficientBalance);
      }
      var moved := Transfer(balances, self, to, amount);
      if moved.None? {
        return Some(TransferFailed);
      }
      errors.RecordSuccess();
      if !FitsI128(data.totalFunds * settings.largePayoutBps) {
        return Some(Overflow);
      }
      var record := PayoutRecord(to, amount, tx.now);
      program := Some(data.(remaining := data.remaining - amount, payouts := data.payouts + [record]));
      balances := moved.value;
      return None;
    }

    method BatchPayout(tx: Tx, tos: seq<Address>, amounts: seq<I128>) returns (failure: Option<Fault>)
      modifies this, errors, abuse`states
      ensures Follows(old(View()), View(), failure, Spec.BatchPayout(old(View()), tx, tos, amounts))
    {
      var stored := View();
      failure := BatchBody(tx, tos, amounts);
      if failure.Some? {
        Rollback(stored);
      }
    }

    method BatchBody(tx: Tx, tos: seq<Address>, amounts: seq<I128>) returns (failure: Option<Fault>)
      modifies this, errors
      ensures Ran(old(View()), View(), failure, Spec.BatchPayout(old(View()), tx, tos, amounts), "batch_pay", tx.now)
    {
      var rejected := errors.CheckAndAllow();
      if rejected.Some? {
        return Some(CircuitOpen);
      }
      if settings.releasePaused {
        return Some(Paused);
      }
      if IsOpen(View(), Everyone) {
        return Some(Disputed);
      }
      if !tx.governanceOk {
        return Some(GovernanceVersionTooLow);
      }
      if program.None? {
        return Some(NotInitialized);
      }
      var data := program.value;
      if data.payoutKey !in tx.auth {
        return Some(NotSigned);
      }
      if settings.whitelistEnforced {
        for i := 0 to |tos|
          invariant forall k :: 0 <= k < i ==> tos[k] in settings.whitelist
        {
          if tos[i] !in settings.whitelist {
            return Some(NotWhitelisted);
          }
        }
      }
      assert !exists i :: 0 <= i < |tos| && !Payable(View(), tos[i]);
      var n := |tos|;
      if n != |amounts| {
        return Some(LengthMismatch);
      }
      if n == 0 {
        return Some(EmptyBatch);
      }
      if n > MAX_BATCH_SIZE {
        return Some(BatchTooLarge);
      }
      for i := 0 to n
        invariant forall k :: 0 <= k < i ==> !IsOpen(View(), Recipient(tos[k]))
      {
        if IsOpen(View(), Recipient(tos[i])) {
          return Some(Disputed);
        }
      }
      var total;
      failure, total := AddUp(amounts);
      if failure.Some? {
        return;
      }
      if total > data.remaining {
        var _ := errors.RecordFailure("batch_pay", data.id, B.ERR_INSUFFICIENT_BALANCE, tx.now);
        return Some(InsufficientBalance);
      }
      if !FitsI128(data.remaining - total) {
        return Some(Overflow);
      }
      var tokens, history;
      failure, tokens, history := SendAll(balances, self, tos, amounts, tx.now);
      if failure.Some? {
        return;
      }
      history := data.payouts + history;
      program := Some(data.(remaining := data.remaining - total, payouts := history));
      balances := tokens;
      errors.RecordSuccess();
      return None;
    }

    /** The loop that checks and adds up the amounts of a batch. */
    static method AddUp(amounts: seq<I128>) returns (failure: Option<Fault>, total: I128)
      ensures match CheckedTotal(amounts, |amounts|)
              case Commit(t) => failure == None && total == t
              case Abort(e) => failure == Some(e)
      ensures failure in {None, Some(NonPositiveAmount), Some(Overflow)}
    {
      total := 0;
      for i := 0 to |amounts|
        invariant CheckedTotal(amounts, i) == Commit(total)
      {
        if amounts[i] <= 0 {
          CheckedTotalStops(amounts, i + 1, |amounts|);
          return Some(NonPositiveAmount), total;
        }
        if !FitsI128(total + amounts[i]) {
          CheckedTotalStops(amounts, i + 1, |amounts|);
          return Some(Overflow), total;
        }
        total := total + amounts[i];
      }
      failure := None;
    }

    /** The transfer loop of a batch, on a copy of the token balances. */
    static method SendAll(start: Balances, self: Address, tos: seq<Address>, amounts: seq<I128>, now: U64)
      returns (failure: Option<Fault>, tokens: Balances, history: seq<PayoutRecord>)
      requires |tos| == |amounts|
      ensures match TransferAll(start, self, tos, amounts, |tos|)
              case Some(b) => failure == None && tokens == b && history == Records(tos, amounts, now, |tos|)
              case None => failure == Some(TransferFailed)
    {
      tokens, history := start, [];
      for i := 0 to |tos|
        invariant TransferAll(start, self, tos, amounts, i) == Some(tokens)
        invariant history == Records(tos, amounts, now, i)
      {
        var moved := Transfer(tokens, self, tos[i], amounts[i]);
        if moved.None? {
          TransferAllStops(start, self, tos, amounts, i + 1, |tos|);
          return Some(TransferFailed), tokens, history;
        }
        tokens := moved.value;
        history := history + [PayoutRecord(tos[i], amounts[i], now)];
      }
      failure := None;
    }

    method CreateProgramReleaseSchedule(tx: Tx, amount: I128, releaseTime: U64, recipient: Address)
      returns (failure: Option<Fault>)
      modifies this
      ensures Follows(old(View()), View(), failure, Spec.CreateSchedule(old(View()), tx, amount, releaseTime,
          recipient))
    {
      if program.None? {
        return Some(NotInitialized);
      }
      if program.value.payoutKey !in tx.auth {
        return Some(NotSigned);
      }
      if amount <= 0 {
        return Some(NonPositiveAmount);
      }
      if settings.whitelistEnforced && recipient !in settings.whitelist {
        return Some(NotWhitelisted);
      }
      if nextId == U64_MAX {
        return Some(Overflow);
      }
      schedules := schedules + [Schedule(nextId, recipient, amount, releaseTime, false, None, None)];
      nextId := nextId + 1;
      return None;
    }

    method TriggerProgramReleases(tx: Tx) returns (failure: Option<Fault>, count: nat)
      modifies this, errors, abuse`states
      ensures Follows(old(View()), View(), failure, Spec.Trigger(old(View()), tx))
      ensures failure == None ==> count == |Spec.Selected(old(View()), tx.now)|
    {
      var stored := View();
      failure, count := TriggerBody(tx);
      if failure.Some? {
        Rollback(stored);
      }
    }

    method TriggerBody(tx: Tx) returns (failure: Option<Fault>, count: nat)
      modifies this, errors
      ensures RanTrigger(old(View()), View(), failure, tx)
      ensures failure == None ==> count == |Spec.Selected(old(View()), tx.now)|
    {
      count := 0;
      var rejected := errors.CheckAndAllow();
      if rejected.Some? {
        return Some(CircuitOpen), count;
      }
      if IsOpen(View(), Everyone) {
        return Some(Disputed), count;
      }
      if program.None? {
        return Some(NotInitialized), count;
      }
      if program.value.payoutKey !in tx.auth {
        return Some(NotSigned), count;
      }
      var work;
      failure, work, count := ReleaseDue(tx.now);
      if failure.Some? {
        if failure == Some(InsufficientBalance) {
          var _ := errors.RecordFailure("trg_rels", program.value.id, B.ERR_INSUFFICIENT_BALANCE, tx.now);
        }
        return;
      }
      program, schedules, releases := work.program, work.schedules, work.releases;
      if count > 0 {
        errors.RecordSuccess();
      }
    }

    /** The release loop: the tokens move at once, everything else is a working copy to be stored
        when the loop has ended. */
    method ReleaseDue(now: U64) returns (failure: Option<Fault>, work: Ledger, count: nat)
      requires program.Some?
      modifies this`balances
      ensures balances == work.balances && SameElsewhere(old(View()), work)
      ensures var l := old(View());
              match TriggerEach(l, Selected(l, now), now)
              case Abort(e) =>
                failure == Some(e) && Commit(work) == TriggerEach(l, PaidRow(l, Selected(l, now), now), now)
              case Commit(m) => failure == None && work == m && count == |Selected(l, now)|
    {
      ghost var l := View();
      work, count := View(), 0;
      var i := 0;
      while i < |work.schedules| && count < MAX_BATCH_SIZE
        invariant 0 <= i <= |l.schedules| && count <= MAX_BATCH_SIZE
        invariant Progress(l, now, i, work, count) && balances == work.balances
      {
        var s := work.schedules[i];
        if !s.released && now >= s.releaseTime && !ScopeDisputed(work, s.id, s.recipient)
            && Payable(work, s.recipient) {
          ghost var before := work;
          failure, work := PayRow(work, i, now);
          PassOver(l, now, i, before, count);
          if failure.Some? {
            return;
          }
          balances := work.balances;
          count := count + 1;
        } else {
          PassOver(l, now, i, work, count);
        }
        i := i + 1;
      }
      failure := None;
      SelectedStartsWith(l, now, i);
    }

    /** One pass of the loop body over an eligible schedule. */
    static method PayRow(l: Ledger, i: nat, now: U64) returns (failure: Option<Fault>, work: Ledger)
      requires l.program.Some? && i < |l.schedules|
      ensures Follows(l, work, failure, TriggerAt(l, i, now))
    {
      var s, data := l.schedules[i], l.program.value;
      if s.amount > data.remaining {
        return Some(InsufficientBalance), l;
      }
      var moved := Transfer(l.balances, l.self, s.recipient, s.amount);
      if moved.None? {
        return Some(TransferFailed), l;
      }
      if !FitsI128(data.remaining - s.amount) {
        return Some(Overflow), l;
      }
      s := s.(released := true, releasedAt := Some(now), releasedBy := Some(l.self));
      data := data.(remaining := data.remaining - s.amount);
      data := data.(payouts := data.payouts + [PayoutRecord(s.recipient, s.amount, now)]);
      var entry := Release(s.id, s.recipient, s.amount, now, Automatic);
      work := l.(program := Some(data), schedules := l.schedules[i := s],
          releases := l.releases + [entry], balances := moved.value);
      return None, work;
    }

    method ReleaseProgramScheduleManual(tx: Tx, id: U64) returns (failure: Option<Fault>)
      modifies this, errors
      ensures Follows(old(View()), View(), failure, Spec.ReleaseOne(old(View()), tx, id, Manual))
    {
      failure := ReleaseSchedule(tx, id, Manual);
    }

    method ReleaseProgScheduleAutomatic(tx: Tx, id: U64) returns (failure: Option<Fault>)
      modifies this, errors
      ensures Follows(old(View()), View(), failure, Spec.ReleaseOne(old(View()), tx, id, Automatic))
    {
      failure := ReleaseSchedule(tx, id, Automatic);
    }

    method FindSchedule(id: U64) returns (i: nat)
      ensures i == IndexOf(schedules, id)
    {
      i := 0;
      while i < |schedules| && schedules[i].id != id
        invariant 0 <= i <= |schedules|
        invariant forall k :: 0 <= k < i ==> schedules[k].id != id
      {
        i := i + 1;
      }
    }

    /** The body the two single-release entry points share. */
    method ReleaseSchedule(tx: Tx, id: U64, kind: ReleaseType) returns (failure: Option<Fault>)
      modifies this, errors
      ensures Follows(old(View()), View(), failure, Spec.ReleaseOne(old(View()), tx, id, kind))
    {
      var rejected := errors.CheckAndAllow();
      if rejected.Some? {
        return Some(CircuitOpen);
      }
      if program.None? {
        return Some(NotInitialized);
      }
      var data := program.value;
      if data.payoutKey !in tx.auth {
        return Some(NotSigned);
      }
      var i := FindSchedule(id);
      if i == |schedules| {
        return Some(ScheduleNotFound);
      }
      var s := schedules[i];
      if s.released {
        return Some(AlreadyReleased);
      }
      if kind == Automatic && tx.now < s.releaseTime {
        return Some(NotYetDue);
      }
      if IsOpen(View(), Everyone) || ScopeDisputed(View(), s.id, s.recipient) {
        return Some(Disputed);
      }
      if settings.whitelistEnforced && s.recipient !in settings.whitelist {
        return Some(NotWhitelisted);
      }
      failure := Disburse(i, tx.now, if kind == Manual then data.payoutKey else self, kind);
      if failure.None? {
        errors.RecordSuccess();
      }
    }

    method Disburse(i: nat, now: U64, releaser: Address, kind: ReleaseType) returns (failure: Option<Fault>)
      requires program.Some? && i < |schedules|
      modifies this
      ensures Follows(old(View()), View(), failure, Spec.ReleaseAt(old(View()), i, now, releaser, kind))
    {
      var s, data := schedules[i], program.value;
      var moved := Transfer(balances, self, s.recipient, s.amount);
      if moved.None? {
        return Some(TransferFailed);
      }
      if !FitsI128(data.remaining - s.amount) {
        return Some(Overflow);
      }
      balances := moved.value;
      program := Some(data.(remaining := data.remaining - s.amount));
      schedules := schedules[i := s.(released := true, releasedAt := Some(now), releasedBy := Some(releaser))];
      releases := releases + [Release(s.id, s.recipient, s.amount, now, kind)];
      return None;
    }

    method OpenDispute(tx: Tx, scope: Scope) returns (failure: Option<Fault>)
      modifies this`disputes
      ensures Follows(old(View()), View(), failure, Spec.OpenDispute(old(View()), tx, scope))
    {
      if scope.OneSchedule? && IndexOf(schedules, scope.id) == |schedules| {
        return Some(ScheduleNotFound);
      }
      if settings.admin.None? {
        return Some(AdminNotSet);
      }
      if settings.admin.value !in tx.auth {
        return Some(NotSigned);
      }
      if IsOpen(View(), scope) {
        return Some(DisputeAlreadyOpen);
      }
      if program.None? {
        return Some(NotInitialized);
      }
      disputes := disputes[scope := DisputeRecord(settings.admin.value, tx.now, DisputeOpen, None, None)];
      return None;
    }

    method CloseDispute(tx: Tx, scope: Scope, resolved: bool) returns (failure: Option<Fault>)
      modifies this`disputes
      ensures Follows(old(View()), View(), failure, Spec.CloseDispute(old(View()), tx, scope, resolved))
    {
      if settings.admin.None? {
        return Some(AdminNotSet);
      }
      if settings.admin.value !in tx.auth {
        return Some(NotSigned);
      }
      if scope !in disputes {
        return Some(NoDispute);
      }
      var record := disputes[scope];
      if record.status != DisputeOpen {
        return Some(NoOpenDispute);
      }
      if program.None? {
        return Some(NotInitialized);
      }
      record := record.(status := if resolved then DisputeResolved else DisputeCancelled,
                        closedBy := settings.admin,
                        closedAt := Some(tx.now));
      disputes := disputes[scope := record];
      return None;
    }

    // -------------------------------------------------------------------------------------------
    // The breaker's administration
    // -------------------------------------------------------------------------------------------

    method RequireBreakerAdmin(tx: Tx, caller: Address) returns (failure: Option<Fault>)
      ensures failure == Spec.BreakerGate(View(), tx, caller)
    {
      if caller !in tx.auth {
        return Some(NotSigned);
      }
      if errors.admin != Some(caller) {
        return Some(NotBreakerAdmin);
      }
      return None;
    }

    method SetCircuitAdmin(tx: Tx, newAdmin: Address, caller: Option<Address>) returns (failure: Option<Fault>)
      modifies errors`admin
      ensures Follows(old(View()), View(), failure, Spec.SetBreakerAdmin(old(View()), tx, newAdmin, caller))
    {
      if errors.admin.None? {
        if settings.admin.None? {
          return Some(AdminNotSet);
        }
        if settings.admin.value !in tx.auth {
          return Some(NotSigned);
        }
      }
      var fault := errors.SetCircuitAdmin(tx.auth, newAdmin, caller);
      return if fault.Some? then Some(NotBreakerAdmin) else None;
    }

    method EmergencyOpenCircuit(tx: Tx, caller: Address) returns (failure: Option<Fault>)
      modifies errors
      ensures Follows(old(View()), View(), failure, Spec.ForceOpenBreaker(old(View()), tx, caller))
    {
      failure := RequireBreakerAdmin(tx, caller);
      if failure.None? {
        errors.OpenCircuit(tx.now);
      }
    }

    method ResetCircuitBreaker(tx: Tx, caller: Address) returns (failure: Option<Fault>)
      modifies errors
      ensures Follows(old(View()), View(), failure, Spec.ResetBreaker(old(View()), tx, caller))
    {
      failure := RequireBreakerAdmin(tx, caller);
      if failure.None? {
        var _ := errors.ResetCircuitBreaker(tx.auth, caller);
      }
    }

    method ConfigureCircuitBreaker(tx: Tx, caller: Address, cfg: B.Config) returns (failure: Option<Fault>)
      modifies errors`cfg
      ensures Follows(old(View()), View(), failure, Spec.ConfigureBreaker(old(View()), tx, caller, cfg))
    {
      if cfg.failureThreshold == 0 {
        return Some(ZeroThreshold);
      }
      failure := RequireBreakerAdmin(tx, caller);
      if failure.None? {
        errors.cfg := cfg;
      }
    }

    // -------------------------------------------------------------------------------------------
    // Paginated queries
    // -------------------------------------------------------------------------------------------

    method QueryPayouts(keep: PayoutRecord -> bool, offset: U32, limit: U32)
        returns (r: Outcome<seq<PayoutRecord>, Fault>)
      ensures r == if program.None? then Abort(NotInitialized)
                   else Commit(P.Slice(P.Filter(program.value.payouts, keep), offset, limit))
    {
      if program.None? {
        return Abort(NotInitialized);
      }
      var page := P.FilterPage(program.value.payouts, keep, offset, limit);
      return Commit(page);
    }

    method QueryPayoutsByRecipient(who: Address, offset: U32, limit: U32) returns (r: Outcome<seq<PayoutRecord>, Fault>)
      ensures r == if program.None? then Abort(NotInitialized)
                   else Commit(P.Slice(P.Filter(program.value.payouts,
                       (p: PayoutRecord) => p.recipient == who), offset, limit))
    {
      r := QueryPayouts((p: PayoutRecord) => p.recipient == who, offset, limit);
    }

    method QueryPayoutsByAmount(low: I128, high: I128, offset: U32, limit: U32)
        returns (r: Outcome<seq<PayoutRecord>, Fault>)
      ensures r == if program.None? then Abort(NotInitialized)
                   else Commit(P.Slice(P.Filter(program.value.payouts,
                       (p: PayoutRecord) => low <= p.amount <= high), offset, limit))
    {
      r := QueryPayouts((p: PayoutRecord) => low <= p.amount <= high, offset, limit);
    }

    method QueryPayoutsByTimestamp(low: U64, high: U64, offset: U32, limit: U32)
        returns (r: Outcome<seq<PayoutRecord>, Fault>)
      ensures r == if program.None? then Abort(NotInitialized)
                   else Commit(P.Slice(P.Filter(program.value.payouts,
                       (p: PayoutRecord) => low <= p.timestamp <= high), offset, limit))
    {
      r := QueryPayouts((p: PayoutRecord) => low <= p.timestamp <= high, offset, limit);
    }

    method QuerySchedulesByRecipient(who: Address, offset: U32, limit: U32) returns (page: seq<Schedule>)
      ensures page == P.Slice(P.Filter(schedules, (s: Schedule) => s.recipient == who), offset, limit)
    {
      page := P.FilterPage(schedules, (s: Schedule) => s.recipient == who, offset, limit);
    }

    method QuerySchedulesByStatus(released: bool, offset: U32, limit: U32) returns (page: seq<Schedule>)
      ensures page == P.Slice(P.Filter(schedules, (s: Schedule) => s.released == released), offset, limit)
    {
      page := P.FilterPage(schedules, (s: Schedule) => s.released == released, offset, limit);
    }

    method QueryReleasesByRecipient(who: Address, offset: U32, limit: U32) returns (page: seq<Release>)
      ensures page == P.Slice(P.Filter(releases, (r: Release) => r.recipient == who), offset, limit)
    {
      page := P.FilterPage(releases, (r: Release) => r.recipient == who, offset, limit);
    }

    method GetProgramReleaseSchedules(offset: U32, limit: U32) returns (page: seq<Schedule>)
      ensures page == P.Slice(schedules, offset, P.Capped(limit))
    {
      page := P.RawPage(schedules, offset, limit);
    }

    method GetPendingSchedules(offset: U32, limit: U32) returns (page: seq<Schedule>)
      ensures page == P.Slice(P.Filter(schedules, (s: Schedule) => !s.released), offset, P.Capped(limit))
    {
      page := P.FilterPage(schedules, (s: Schedule) => !s.released, offset, P.Capped(limit));
    }

    method GetDueSchedules(now: U64, offset: U32, limit: U32) returns (page: seq<Schedule>)
      ensures page == P.Slice(P.Filter(schedules,
          (s: Schedule) => !s.released && s.releaseTime <= now), offset, P.Capped(limit))
    {
      page := P.FilterPage(schedules, (s: Schedule) => !s.released && s.releaseTime <= now, offset, P.Capped(limit));
    }
  }
}
