/** The single administrator of a core instance: what it alone can do, which delay its schedules get,
    and which code its upgrades install. */
module CoreAdmin {
  import opened Prelude
  import opened CoreSpec
  import opened CoreProofs
  import opened CoreInstalls
  import M = MultiSigSpec

  predicate AdminSigned(s: State, auth: set<Address>) {
    s.admin.Some? && s.admin.value in auth
  }

  // ---------------------------------------------------------------------------------------------
  // Exactly when the calls go through
  // ---------------------------------------------------------------------------------------------

  /** Main result: in every reachable state an instance is claimed exactly while it is free: for a
      multisig by distinct signers who can meet the threshold, for an administrator by anyone. */
  lemma ClaimsExact(calls: seq<Call>, k: nat, signers: seq<Address>, threshold: U32, admin: Address)
    requires k <= |calls|
    ensures var s := At(calls, k); var r := Init(s, signers, threshold);
      && (r.Commit? <==> s.version.None? && s.gov.mode.None? && M.Distinct(signers) && 1 <= threshold <= |signers|)
      && (r.Commit? ==>
            && r.state.ms.config == Some(M.Config(signers, threshold)) && r.state.ms.proposals == map[]
            && r.state == s.(gov := s.gov.(mode := Some(MultisigMode)), ms := r.state.ms, version := Some(2)))
    ensures var s := At(calls, k); var r := InitAdmin(s, admin);
      && (r.Commit? <==> s.gov.mode.None?)
      && (r.Commit? ==>
            r.state == s.(gov := s.gov.(mode := Some(SingleAdminMode)), admin := Some(admin), version := Some(2)))
  {
    RunKeepsInv(calls, k);
  }

  /** Main result: delays of at least five minutes, schedules, versions and upgrades are exactly the
      administrator's; an upgrade also needs the pending schedule for its hash to be due, and then
      installs that hash, remembers the version and uses up the schedule. */
  lemma AdminCallsExact(
    s: State, auth: set<Address>, seconds: U64, hash: Hash, now: U64, version: U32, installFails: bool)
    ensures var r := SetUpgradeDelay(s, auth, seconds);
      && (r.Commit? <==> AdminSigned(s, auth) && seconds >= 300)
      && (r.Commit? ==> r.state == s.(delay := Some(seconds)))
    ensures var r := ScheduleUpgrade(s, auth, hash, now);
      && (r.Commit? <==> AdminSigned(s, auth))
      && (r.Commit? ==>
            var wait := if s.delay.Some? then s.delay.value else 86400;
            r.state == s.(scheduled := Some(Scheduled(hash, now, Min(U64_MAX, now + wait)))))
    ensures var r := SetVersion(s, auth, version);
      && (r.Commit? <==> AdminSigned(s, auth))
      && (r.Commit? ==> r.state == s.(version := Some(version)))
    ensures var r := Upgrade(s, auth, hash, now, installFails);
      && (r.Commit? <==>
            && AdminSigned(s, auth) && s.scheduled.Some?
            && s.scheduled.value.hash == hash && now >= s.scheduled.value.executableAt && !installFails)
      && (r.Commit? ==>
            r.state == s.(previousVersion := Some(if s.version.Some? then s.version.value else 1), scheduled := None,
                          installs := s.installs + [Install(hash, SingleAdminMode)]))
  {
  }

  // ---------------------------------------------------------------------------------------------
  // Runs
  // ---------------------------------------------------------------------------------------------

  lemma StepKeepsAdmin(s: State, c: Call)
    requires Inv(s) && Step(s, c).Commit? && s.admin.Some?
    ensures Step(s, c).state.admin == s.admin
  {
  }

  /** Main result: an administrator stays for good. */
  lemma {:induction false} AdminIsPermanent(calls: seq<Call>, j: nat, k: nat)
    requires j <= k <= |calls| && At(calls, j).admin.Some?
    ensures At(calls, k).admin == At(calls, j).admin
    decreases k - j
  {
    if j == k {
    } else {
      AdminIsPermanent(calls, j, k - 1);
      RunKeepsInv(calls, k - 1);
      if Committed(calls, k - 1) {
        StepKeepsAdmin(At(calls, k - 1), calls[k - 1]);
      }
    }
  }

  /** The delay in force after `k` transactions: the one last set, or a day. */
  function DelayInForce(calls: seq<Call>, k: nat): U64
    requires k <= |calls|
  {
    if k == 0 then 86400
    else if calls[k - 1].op.DoSetDelay? && Committed(calls, k - 1) then calls[k - 1].op.seconds
    else DelayInForce(calls, k - 1)
  }

  lemma StepKeepsDelay(s: State, c: Call)
    requires Step(s, c).Commit?
    ensures Step(s, c).state.delay == if c.op.DoSetDelay? then Some(c.op.seconds) else s.delay
  {
  }

  lemma {:induction false} DelayIsInForce(calls: seq<Call>, k: nat)
    requires k <= |calls|
    ensures DelayInForce(calls, k) == var s := At(calls, k); if s.delay.Some? then s.delay.value else 86400
  {
    if k == 0 {
    } else {
      DelayIsInForce(calls, k - 1);
      if Committed(calls, k - 1) {
        StepKeepsDelay(At(calls, k - 1), calls[k - 1]);
      }
    }
  }

  /** Main result: every single-admin upgrade happens no earlier than the latest schedule, which was for
      its hash, plus the delay in force when that schedule was made. */
  lemma UpgradeWaitsItsDelay(calls: seq<Call>, k: nat) returns (j: nat)
    requires k < |calls| && calls[k].op.DoUpgrade? && Committed(calls, k)
    ensures LatestSchedule(calls, j, k) && calls[j].op.hash == calls[k].op.hash
    ensures calls[k].now >= Min(U64_MAX, calls[j].now + DelayInForce(calls, j))
    ensures DelayInForce(calls, j) >= 300
  {
    j := PendingDeadline(calls, k);
    RunKeepsInv(calls, j);
    DelayIsInForce(calls, j);
  }

  lemma {:induction false} PendingDeadline(calls: seq<Call>, k: nat) returns (j: nat)
    requires k <= |calls| && At(calls, k).scheduled.Some?
    ensures LatestSchedule(calls, j, k)
    ensures At(calls, k).scheduled.value
         == Scheduled(calls[j].op.hash, calls[j].now, Min(U64_MAX, calls[j].now + DelayInForce(calls, j)))
  {
    var before, c := At(calls, k - 1), calls[k - 1];
    if Committed(calls, k - 1) {
      StepOnPending(before, c);
    }
    if Committed(calls, k - 1) && c.op.DoSchedule? {
      DelayIsInForce(calls, k - 1);
      j := k - 1;
    } else {
      j := PendingDeadline(calls, k - 1);
    }
  }

  // ---------------------------------------------------------------------------------------------
  // What the administrator's upgrades install
  // ---------------------------------------------------------------------------------------------

  /** The hashes of the committed single-admin upgrades among the first `k` transactions, in order. */
  function UpgradedTo(calls: seq<Call>, k: nat): seq<Hash>
    requires k <= |calls|
  {
    if k == 0 then []
    else
      var earlier := UpgradedTo(calls, k - 1);
      if calls[k - 1].op.DoUpgrade? && Committed(calls, k - 1) then earlier + [calls[k - 1].op.hash] else earlier
  }

  lemma OnlyUpgradesInstall(s: State, c: Call)
    requires Inv(s) && Step(s, c).Commit? && s.gov.mode == Some(SingleAdminMode)
    ensures Step(s, c).state.gov.mode == s.gov.mode
    ensures Step(s, c).state.installs
         == if c.op.DoUpgrade? then s.installs + [Install(c.op.hash, SingleAdminMode)] else s.installs
  {
    StepKeepsInv(s, c);
  }

  lemma UpgradesNeedTheMode(s: State, c: Call)
    requires Inv(s) && Step(s, c).Commit? && c.op.DoUpgrade?
    ensures s.gov.mode == Some(SingleAdminMode)
  {
  }

  /** The call puts the instance into single-admin mode. */
  lemma ClaimingInstallsNothing(s: State, c: Call)
    requires Inv(s) && Step(s, c).Commit?
    requires s.gov.mode != Some(SingleAdminMode) && Step(s, c).state.gov.mode == Some(SingleAdminMode)
    ensures Step(s, c).state.installs == []
  {
    StepKeepsInv(s, c);
    NothingInstalledYet(s);
  }

  /** Outside single-admin mode there have been no such upgrades; in it they are all there is. */
  predicate InstallsAreUpgrades(calls: seq<Call>, k: nat)
    requires k <= |calls|
  {
    var s := At(calls, k);
    if s.gov.mode != Some(SingleAdminMode) then UpgradedTo(calls, k) == []
    else
      && |s.installs| == |UpgradedTo(calls, k)|
      && forall n :: 0 <= n < |s.installs| ==> s.installs[n] == Install(UpgradedTo(calls, k)[n], SingleAdminMode)
  }

  lemma OneMoreCall(calls: seq<Call>, k: nat)
    requires 0 < k <= |calls| && InstallsAreUpgrades(calls, k - 1)
    ensures InstallsAreUpgrades(calls, k)
  {
    var s, c := At(calls, k - 1), calls[k - 1];
    RunKeepsInv(calls, k - 1);
    if Committed(calls, k - 1) {
      if c.op.DoUpgrade? {
        UpgradesNeedTheMode(s, c);
      }
      if s.gov.mode == Some(SingleAdminMode) {
        OnlyUpgradesInstall(s, c);
      } else if Step(s, c).state.gov.mode == Some(SingleAdminMode) {
        ClaimingInstallsNothing(s, c);
      }
    }
  }

  lemma {:induction false} RunInstallsUpgrades(calls: seq<Call>, k: nat)
    requires k <= |calls|
    ensures InstallsAreUpgrades(calls, k)
  {
    if k == 0 {
    } else {
      RunInstallsUpgrades(calls, k - 1);
      OneMoreCall(calls, k);
    }
  }

  /** Main result: at any point of any run in single-admin mode the code replacements are exactly the
      hashes of the committed upgrade calls, in order. */
  lemma AdminInstallsExactly(calls: seq<Call>, k: nat)
    requires k <= |calls| && At(calls, k).gov.mode == Some(SingleAdminMode)
    ensures var s, hashes := At(calls, k), UpgradedTo(calls, k);
      && |s.installs| == |hashes|
      && forall n :: 0 <= n < |hashes| ==> s.installs[n] == Install(hashes[n], SingleAdminMode)
  {
    RunInstallsUpgrades(calls, k);
  }

  /** Main result: each committed upgrade call replaces the code by its hash, once. */
  lemma UpgradeInstallsItsHash(calls: seq<Call>, k: nat)
    requires k < |calls| && calls[k].op.DoUpgrade? && Committed(calls, k)
    ensures At(calls, k + 1).installs == At(calls, k).installs + [Install(calls[k].op.hash, SingleAdminMode)]
  {
  }

  // ---------------------------------------------------------------------------------------------
  // Reasons
  // ---------------------------------------------------------------------------------------------

  predicate IsAdminCall(op: Op) {
    op.DoSetDelay? || op.DoSchedule? || op.DoUpgrade? || op.DoSetVersion?
  }

  /** What each reason of a claiming or administrator's call means. */
  predicate True(s: State, c: Call, e: Fault) {
    match e
    case AlreadyInitialized => (c.op.DoInit? && s.version.Some?) || (c.op.DoInitAdmin? && s.admin.Some?)
    case ModeClaimed => (c.op.DoInit? || c.op.DoInitAdmin?) && s.gov.mode.Some?
    case AdminNotSet => IsAdminCall(c.op) && s.admin.None?
    case NotSigned => IsAdminCall(c.op) && s.admin.Some? && s.admin.value !in c.auth
    case DelayBelowMinimum => c.op.DoSetDelay? && c.op.seconds < 300
    case NoScheduledUpgrade => c.op.DoUpgrade? && s.scheduled.None?
    case HashMismatch => c.op.DoUpgrade? && s.scheduled.Some? && s.scheduled.value.hash != c.op.hash
    case TimelockNotElapsed => c.op.DoUpgrade? && s.scheduled.Some? && c.now < s.scheduled.value.executableAt
    case InstallRefused => c.op.DoUpgrade? && c.op.installFails
    case FromMultisig(_) => c.op.DoInit?
    case FromGovernance(_) => false
  }

  /** Main result: the reason a failing claim or administrator's call gives is true of it. */
  lemma ReasonsAreTrue(s: State, c: Call)
    requires (c.op.DoInit? || c.op.DoInitAdmin? || IsAdminCall(c.op)) && Step(s, c).Abort?
    ensures True(s, c, Step(s, c).error)
  {
  }
}
