/** One upgrade authority per instance, and no single-admin upgrade without its timelock. */
module CoreProofs {
  import opened Prelude
  import opened CoreSpec
  import G = GovernanceSpec
  import GP = GovernanceProofs
  import M = MultiSigSpec

  /** Every entry point that touches the shared storage. `OfGovernance` includes `init_governance`. */
  datatype Op =
    | DoInit(signers: seq<Address>, threshold: U32)
    | DoInitAdmin(newAdmin: Address)
    | OfGovernance(g: GP.Op)
    | DoPropose(proposer: Address, hash: Hash)
    | DoApprove(id: U64, signer: Address)
    | DoRemoveSigner(caller: Address, target: Address)
    | DoAddSigner(caller: Address, newSigner: Address)
    | DoRotateSigners(caller: Address, add: seq<Address>, remove: seq<Address>, newThreshold: Option<U32>)
    | DoExecuteUpgrade(id: U64, expectedNonce: U64, installFails: bool)
    | DoSetDelay(seconds: U64)
    | DoSchedule(hash: Hash)
    | DoUpgrade(hash: Hash, installFails: bool)
    | DoSetVersion(version: U32)

  datatype Call = Call(auth: set<Address>, now: U64, op: Op)

  function InMultisig(s: State, r: Outcome<M.State, M.Fault>): Outcome<State, Fault> {
    match r
    case Commit(ms) => Commit(s.(ms := ms))
    case Abort(e) => Abort(FromMultisig(e))
  }

  function Step(s: State, c: Call): Outcome<State, Fault> {
    match c.op
    case DoInit(signers, threshold) => Init(s, signers, threshold)
    case DoInitAdmin(newAdmin) => InitAdmin(s, newAdmin)
    case OfGovernance(g) =>
      (match GP.Step(s.gov, GP.Call(c.auth, c.now, g))
       case Commit(gov) => Commit(s.(gov := gov))
       case Abort(e) => Abort(FromGovernance(e)))
    case DoPropose(proposer, hash) => InMultisig(s, M.Propose(s.ms, c.auth, proposer, M.Upgrade(hash)))
    case DoApprove(id, signer) => InMultisig(s, M.Approve(s.ms, c.auth, id, signer))
    case DoRemoveSigner(caller, target) => InMultisig(s, M.RemoveSigner(s.ms, c.auth, caller, target))
    case DoAddSigner(caller, newSigner) => InMultisig(s, M.AddSigner(s.ms, c.auth, caller, newSigner))
    case DoRotateSigners(caller, add, remove, t) => InMultisig(s, M.RotateSigners(s.ms, c.auth, caller, add, remove, t))
    case DoExecuteUpgrade(id, expectedNonce, installFails) => ExecuteUpgrade(s, id, expectedNonce, installFails)
    case DoSetDelay(seconds) => SetUpgradeDelay(s, c.auth, seconds)
    case DoSchedule(hash) => ScheduleUpgrade(s, c.auth, hash, c.now)
    case DoUpgrade(hash, installFails) => Upgrade(s, c.auth, hash, c.now, installFails)
    case DoSetVersion(version) => SetVersion(s, c.auth, version)
  }

  /** The state after the first `k` transactions of a run; aborted ones leave no trace. */
  function At(calls: seq<Call>, k: nat): State
    requires k <= |calls|
  {
    if k == 0 then EMPTY
    else
      var before := At(calls, k - 1);
      match Step(before, calls[k - 1])
      case Commit(s) => s
      case Abort(_) => before
  }

  predicate Committed(calls: seq<Call>, k: nat)
    requires k < |calls|
  {
    Step(At(calls, k), calls[k]).Commit?
  }

  // ---------------------------------------------------------------------------------------------
  // One authority
  // ---------------------------------------------------------------------------------------------

  predicate Exclusive(s: State) {
    && (s.admin.Some? <==> s.gov.mode == Some(SingleAdminMode))
    && (s.ms.config.Some? <==> s.gov.mode == Some(MultisigMode))
    && (s.gov.config.Some? <==> s.gov.mode == Some(GovernanceMode))
  }

  ghost predicate Inv(s: State) {
    && Exclusive(s)
    && (s.ms.config.None? ==> s.ms.proposals == map[])
    && (s.delay.Some? ==> s.delay.value >= MIN_UPGRADE_DELAY)
    && (forall i :: 0 <= i < |s.installs| ==>
          s.gov.mode == Some(s.installs[i].via) && s.installs[i].via != GovernanceMode)
  }

  /** Governance calls claim a free mode together with their configuration, and change neither later. */
  lemma GovernanceClaims(g: G.State, c: GP.Call)
    requires GP.Step(g, c).Commit?
    ensures var g' := GP.Step(g, c).state;
      || (g'.mode == g.mode && g'.config == g.config)
      || (g.mode == None && g'.mode == Some(GovernanceMode) && g'.config.Some?)
  {
  }

  /** Multisig calls other than its initialiser need a configuration and keep one. */
  lemma MultisigNeedsConfig(s: State, c: Call)
    requires c.op.DoPropose? || c.op.DoApprove? || c.op.DoRemoveSigner? || c.op.DoAddSigner? || c.op.DoRotateSigners?
    requires Step(s, c).Commit? && (s.ms.config.None? ==> s.ms.proposals == map[])
    ensures var m := Step(s, c).state; m == s.(ms := m.ms) && s.ms.config.Some? && m.ms.config.Some?
  {
  }

  lemma ExecuteNeedsConfig(s: State, id: U64, expectedNonce: U64, installFails: bool)
    requires Inv(s) && ExecuteUpgrade(s, id, expectedNonce, installFails).Commit?
    ensures Inv(ExecuteUpgrade(s, id, expectedNonce, installFails).state)
    ensures ExecuteUpgrade(s, id, expectedNonce, installFails).state.gov == s.gov
  {
  }

  lemma StepKeepsInv(s: State, c: Call)
    requires Inv(s) && Step(s, c).Commit?
    ensures Inv(Step(s, c).state)
    ensures s.gov.mode.Some? ==> Step(s, c).state.gov.mode == s.gov.mode
  {
    match c.op
    case OfGovernance(g) => GovernanceClaims(s.gov, GP.Call(c.auth, c.now, g));
    case DoPropose(_, _) => MultisigNeedsConfig(s, c);
    case DoApprove(_, _) => MultisigNeedsConfig(s, c);
    case DoRemoveSigner(_, _) => MultisigNeedsConfig(s, c);
    case DoAddSigner(_, _) => MultisigNeedsConfig(s, c);
    case DoRotateSigners(_, _, _, _) => MultisigNeedsConfig(s, c);
    case DoExecuteUpgrade(id, expectedNonce, installFails) => ExecuteNeedsConfig(s, id, expectedNonce, installFails);
    case _ =>
  }

  lemma {:induction false} RunKeepsInv(calls: seq<Call>, k: nat)
    requires k <= |calls|
    ensures Inv(At(calls, k))
  {
    if k == 0 {
    } else {
      RunKeepsInv(calls, k - 1);
      if Committed(calls, k - 1) {
        StepKeepsInv(At(calls, k - 1), calls[k - 1]);
      }
    }
  }

  /** Main result: at any point of any run at most one of the three authorities is configured, namely
      the one whose mode is claimed, and every code replacement so far came through it. */
  lemma OneAuthority(calls: seq<Call>, k: nat)
    requires k <= |calls|
    ensures var s := At(calls, k);
      && Exclusive(s)
      && (forall i :: 0 <= i < |s.installs| ==> s.gov.mode == Some(s.installs[i].via))
      && (s.gov.mode == Some(GovernanceMode) ==> s.installs == [])
  {
    RunKeepsInv(calls, k);
    var s := At(calls, k);
    if s.installs != [] {
      assert s.installs[0].via != GovernanceMode;
    }
  }

  /** Main result: a claimed mode is claimed for good. */
  lemma {:induction false} ModeIsPermanent(calls: seq<Call>, j: nat, k: nat)
    requires j <= k <= |calls| && At(calls, j).gov.mode.Some?
    ensures At(calls, k).gov.mode == At(calls, j).gov.mode
    decreases k - j
  {
    if j == k {
    } else {
      ModeIsPermanent(calls, j, k - 1);
      RunKeepsInv(calls, k - 1);
      if Committed(calls, k - 1) {
        StepKeepsInv(At(calls, k - 1), calls[k - 1]);
      }
    }
  }

  // ---------------------------------------------------------------------------------------------
  // The timelock
  // ---------------------------------------------------------------------------------------------

  /** Transaction `j` scheduled what is pending after `k` transactions, and nothing since has
      scheduled or upgraded. */
  predicate LatestSchedule(calls: seq<Call>, j: nat, k: nat) {
    && j < k <= |calls|
    && calls[j].op.DoSchedule? && Committed(calls, j)
    && forall m: nat :: j < m < k && Committed(calls, m) ==> !calls[m].op.DoSchedule? && !calls[m].op.DoUpgrade?
  }

  /** Only scheduling and upgrading touch the pending upgrade. */
  lemma StepOnPending(s: State, c: Call)
    requires Step(s, c).Commit?
    ensures !c.op.DoSchedule? && !c.op.DoUpgrade? ==> Step(s, c).state.scheduled == s.scheduled
    ensures c.op.DoUpgrade? ==> Step(s, c).state.scheduled == None
    ensures c.op.DoSchedule? ==>
        Step(s, c).state.scheduled == Some(Scheduled(c.op.hash, c.now, SatAdd(c.now, Delay(s))))
  {
  }

  lemma {:induction false} PendingHasSchedule(calls: seq<Call>, k: nat) returns (j: nat)
    requires k <= |calls| && At(calls, k).scheduled.Some?
    ensures LatestSchedule(calls, j, k)
    ensures var p := At(calls, k).scheduled.value;
      && calls[j].op.hash == p.hash && calls[j].now == p.scheduledAt
      && p.executableAt >= SatAdd(p.scheduledAt, MIN_UPGRADE_DELAY)
  {
    var before, c := At(calls, k - 1), calls[k - 1];
    if Committed(calls, k - 1) {
      StepOnPending(before, c);
    }
    if Committed(calls, k - 1) && c.op.DoSchedule? {
      RunKeepsInv(calls, k - 1);
      j := k - 1;
    } else {
      j := PendingHasSchedule(calls, k - 1);
    }
  }

  /** Main result: every single-admin upgrade consumes the latest schedule, which was for the same
      hash, made at least five minutes before (up to saturation of the clock), and used by no other
      upgrade. */
  lemma EveryUpgradeWasScheduled(calls: seq<Call>, k: nat) returns (j: nat)
    requires k < |calls| && calls[k].op.DoUpgrade? && Committed(calls, k)
    ensures LatestSchedule(calls, j, k)
    ensures calls[j].op.hash == calls[k].op.hash
    ensures calls[k].now >= Min(U64_MAX, calls[j].now + 300)
    ensures At(calls, k + 1).scheduled == None
  {
    j := PendingHasSchedule(calls, k);
  }
}
