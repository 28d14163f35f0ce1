/** What administrators decide: disputes, the breaker's administration, and what a payout reports to it. */
module EscrowOversight {
  import opened Prelude
  import opened EscrowSpec
  import opened EscrowRuns
  import opened EscrowAccess
  import opened EscrowDisputes
  import B = CircuitBreaker

  // ---------------------------------------------------------------------------------------------
  // Disputes
  // ---------------------------------------------------------------------------------------------

  /** The contract's administrator is set and signed. */
  predicate AdminSigned(l: Ledger, tx: Tx) {
    l.settings.admin.Some? && l.settings.admin.value in tx.auth
  }

  /** Main result: in every reachable ledger a dispute is opened exactly by the administrator, for a
      registered program, on a scope without an open one and, if it is a schedule, on one that
      exists; closed exactly by the administrator where one is open. The records say who, when, how. */
  lemma DisputesExact(start: Ledger, calls: seq<Call>, k: nat, tx: Tx, scope: Scope, resolved: bool)
    requires Fresh(start) && k <= |calls|
    ensures var l := At(start, calls, k); var r := OpenDispute(l, tx, scope);
      && (r.Commit? <==>
            && AdminSigned(l, tx) && l.program.Some?
            && !(scope in l.disputes && l.disputes[scope].status == DisputeOpen)
            && (scope.OneSchedule? ==> 1 <= scope.id <= |l.schedules|))
      && (r.Commit? ==>
            var record := DisputeRecord(l.settings.admin.value, tx.now, DisputeOpen, None, None);
            r.state == l.(disputes := l.disputes[scope := record]))
    ensures var l := At(start, calls, k); var r := CloseDispute(l, tx, scope, resolved);
      && (r.Commit? <==>
            && AdminSigned(l, tx) && l.program.Some?
            && scope in l.disputes && l.disputes[scope].status == DisputeOpen)
      && (r.Commit? ==>
            var was := l.disputes[scope];
            var status := if resolved then DisputeResolved else DisputeCancelled;
            var record := DisputeRecord(was.openedBy, was.openedAt, status, l.settings.admin, Some(tx.now));
            r.state == l.(disputes := l.disputes[scope := record]))
  {
    RunKeepsInv(start, calls, k);
    if scope.OneSchedule? {
      DenseIds(At(start, calls, k), scope.id);
    }
  }

  lemma DisputesStay(l: Ledger, c: Call)
    requires !c.op.DoOpenDispute? && !c.op.DoCloseDispute?
    ensures Next(l, c).disputes == l.disputes
  {
    if Step(l, c).Commit? {
      match c.op
      case DoTrigger => TriggerEachDisputes(l, Selected(l, c.tx.now), c.tx.now);
      case DoBatch(tos, amounts) => BatchCommits(l, c.tx, tos, amounts);
      case DoRelease(id, kind) => ReleaseKeepsDisputes(l, c.tx, id, kind);
      case _ =>
    }
  }

  /** Main result: a dispute that is open at some point of a run and not after the next call was ended
      by that call: the administrator signed it, and it left Resolved or Cancelled as it asked. */
  lemma OnlyTheAdminEndsDisputes(start: Ledger, calls: seq<Call>, k: nat, scope: Scope)
    requires Fresh(start) && k < |calls|
    requires IsOpen(At(start, calls, k), scope) && !IsOpen(At(start, calls, k + 1), scope)
    ensures AdminSigned(At(start, calls, k), calls[k].tx)
    ensures calls[k].op.DoCloseDispute? && calls[k].op.scope == scope
    ensures scope in At(start, calls, k + 1).disputes
    ensures At(start, calls, k + 1).disputes[scope].status
         == if calls[k].op.resolved then DisputeResolved else DisputeCancelled
  {
    if !calls[k].op.DoOpenDispute? && !calls[k].op.DoCloseDispute? {
      DisputesStay(At(start, calls, k), calls[k]);
    }
  }

  /** Main result: a dispute that is open at the end of a run was opened by a call the administrator
      of that time signed, and is the one on record. */
  lemma {:induction false} OpenDisputeOrigin(start: Ledger, calls: seq<Call>, k: nat, scope: Scope) returns (j: nat)
    requires Fresh(start) && k <= |calls| && IsOpen(At(start, calls, k), scope)
    ensures j < k && calls[j].op == DoOpenDispute(scope) && AdminSigned(At(start, calls, j), calls[j].tx)
    ensures At(start, calls, k).disputes[scope]
         == DisputeRecord(At(start, calls, j).settings.admin.value, calls[j].tx.now, DisputeOpen, None, None)
  {
    var before, c := At(start, calls, k - 1), calls[k - 1];
    if c.op == DoOpenDispute(scope) && Step(before, c).Commit? {
      j := k - 1;
    } else {
      if !c.op.DoOpenDispute? && !c.op.DoCloseDispute? {
        DisputesStay(before, c);
      }
      j := OpenDisputeOrigin(start, calls, k - 1, scope);
    }
  }

  // ---------------------------------------------------------------------------------------------
  // The breaker
  // ---------------------------------------------------------------------------------------------

  predicate BreakerAdminSigned(l: Ledger, tx: Tx, caller: Address) {
    caller in tx.auth && l.breaker.admin == Some(caller)
  }

  /** Main result: the breaker's administrator and nobody else forces it open, resets it and
      configures it, with a positive threshold; the contract's administrator names the first one. */
  lemma BreakerCallsExact(l: Ledger, tx: Tx, caller: Address, cfg: B.Config, admin: Address, holder: Option<Address>)
    ensures var r := ForceOpenBreaker(l, tx, caller);
      && (r.Commit? <==> BreakerAdminSigned(l, tx, caller))
      && (r.Commit? ==> r.state == l.(breaker := l.breaker.(state := B.Open, openedAt := tx.now, successes := 0)))
    ensures var r := ResetBreaker(l, tx, caller);
      && (r.Commit? <==> BreakerAdminSigned(l, tx, caller))
      && (r.Commit? ==>
            r.state == l.(breaker :=
              if l.breaker.state == B.Open then l.breaker.(state := B.HalfOpen, successes := 0)
              else l.breaker.(state := B.Closed, failures := 0, successes := 0, openedAt := 0)))
    ensures var r := ConfigureBreaker(l, tx, caller, cfg);
      && (r.Commit? <==> BreakerAdminSigned(l, tx, caller) && cfg.failureThreshold > 0)
      && (r.Commit? ==> r.state == l.(breaker := l.breaker.(cfg := cfg)))
    ensures var r := SetBreakerAdmin(l, tx, admin, holder);
      && (r.Commit? <==>
            if l.breaker.admin.None? then AdminSigned(l, tx)
            else holder == l.breaker.admin && BreakerAdminSigned(l, tx, l.breaker.admin.value))
      && (r.Commit? ==> r.state == l.(breaker := l.breaker.(admin := Some(admin))))
  {
  }

  lemma {:induction false} RowKeepsBreaker(l: Ledger, row: seq<nat>, now: U64)
    requires l.program.Some? && InRange(l, row) && TriggerEach(l, row, now).Commit?
    ensures TriggerEach(l, row, now).state.breaker == l.breaker
    decreases |row|
  {
    if row == [] {
    } else {
      RowKeepsBreaker(l, row[..|row| - 1], now);
    }
  }

  lemma ReleaseReports(l: Ledger, tx: Tx, id: U64, kind: ReleaseType)
    requires ReleaseOne(l, tx, id, kind).Commit?
    ensures ReleaseOne(l, tx, id, kind).state.breaker == B.OnSuccess(l.breaker)
  {
  }

  /** Main result: a payout that goes through reports exactly one success to the breaker; only a trigger
      call that finds nothing to release reports none. */
  lemma PayoutsReportOneSuccess(l: Ledger, c: Call)
    requires IsPayout(c.op) && Step(l, c).Commit?
    ensures Next(l, c).breaker
         == if c.op.DoTrigger? && AllEligible(l, c.tx.now) == [] then l.breaker else B.OnSuccess(l.breaker)
  {
    match c.op
    case DoSingle(_, _) =>
    case DoBatch(tos, amounts) => BatchCommits(l, c.tx, tos, amounts);
    case DoTrigger => RowKeepsBreaker(l, Selected(l, c.tx.now), c.tx.now);
    case DoRelease(id, kind) => ReleaseReports(l, c.tx, id, kind);
  }

  // ---------------------------------------------------------------------------------------------
  // Registration
  // ---------------------------------------------------------------------------------------------

  /** Main result: the first registration, and no other, goes through, whoever makes it; it only adds
      the program with nothing locked and nothing paid. */
  lemma RegisteredOnce(start: Ledger, calls: seq<Call>, k: nat, id: string, key: Address, token: Address)
    requires Fresh(start) && k <= |calls|
    ensures var l := At(start, calls, k);
      Initialize(l, id, key, token)
      == if l.program.Some? then Abort(AlreadyInitialized)
         else Commit(l.(program := Some(Program(id, 0, 0, key, token, []))))
  {
    RunKeepsInv(start, calls, k);
  }
}
