/** The upgrade authority of a grainlify-core instance: mode claiming, the single-admin timelock and
    the multisig upgrade, over the storage shared with governance (grainlify-core/src/lib.rs). */
module CoreSpec {
  import opened Prelude
  import G = GovernanceSpec
  import M = MultiSigSpec

  const VERSION: U32 := 2
  const MIN_UPGRADE_DELAY: U64 := 300
  const DEFAULT_UPGRADE_DELAY: U64 := 86400

  datatype Scheduled = Scheduled(hash: Hash, scheduledAt: U64, executableAt: U64)

  /** A replacement of the contract's code, and the path that made it. */
  datatype Install = Install(hash: Hash, via: UpgradeMode)

  datatype State = State(
    gov: G.State,
    ms: M.State,
    admin: Option<Address>,
    version: Option<U32>,
    previousVersion: Option<U32>,
    delay: Option<U64>,
    scheduled: Option<Scheduled>,
    installs: seq<Install>)

  datatype Fault =
    | AlreadyInitialized | ModeClaimed | AdminNotSet | NotSigned
    | DelayBelowMinimum | NoScheduledUpgrade | HashMismatch | TimelockNotElapsed | InstallRefused
    | FromGovernance(g: G.Fault) | FromMultisig(m: M.Fault)

  const EMPTY := State(G.EMPTY, M.EMPTY, None, None, None, None, None, [])

  function Claim(s: State, mode: UpgradeMode): State {
    s.(gov := s.gov.(mode := Some(mode)))
  }

  function Init(s: State, signers: seq<Address>, threshold: U32): Outcome<State, Fault> {
    if s.version.Some? then Abort(AlreadyInitialized)
    else if s.gov.mode.Some? then Abort(ModeClaimed)
    else
      match M.Init(s.ms, signers, threshold)
      case Abort(e) => Abort(FromMultisig(e))
      case Commit(ms) => Commit(Claim(s, MultisigMode).(ms := ms, version := Some(VERSION)))
  }

  function InitAdmin(s: State, admin: Address): Outcome<State, Fault> {
    if s.admin.Some? then Abort(AlreadyInitialized)
    else if s.gov.mode.Some? then Abort(ModeClaimed)
    else Commit(Claim(s, SingleAdminMode).(admin := Some(admin), version := Some(VERSION)))
  }

  function AdminGate(s: State, auth: set<Address>): Option<Fault> {
    if s.admin.None? then Some(AdminNotSet)
    else if s.admin.value !in auth then Some(NotSigned)
    else None
  }

  function Delay(s: State): U64 {
    if s.delay.Some? then s.delay.value else DEFAULT_UPGRADE_DELAY
  }

  function SetUpgradeDelay(s: State, auth: set<Address>, delay: U64): Outcome<State, Fault> {
    if AdminGate(s, auth).Some? then Abort(AdminGate(s, auth).value)
    else if delay < MIN_UPGRADE_DELAY then Abort(DelayBelowMinimum)
    else Commit(s.(delay := Some(delay)))
  }

  function ScheduleUpgrade(s: State, auth: set<Address>, hash: Hash, now: U64): Outcome<State, Fault> {
    if AdminGate(s, auth).Some? then Abort(AdminGate(s, auth).value)
    else Commit(s.(scheduled := Some(Scheduled(hash, now, SatAdd(now, Delay(s))))))
  }

  /** `installFails` says whether the host refuses the hash, which aborts the transaction. */
  function Upgrade(s: State, auth: set<Address>, hash: Hash, now: U64, installFails: bool): Outcome<State, Fault> {
    if AdminGate(s, auth).Some? then Abort(AdminGate(s, auth).value)
    else if s.scheduled.None? then Abort(NoScheduledUpgrade)
    else if s.scheduled.value.hash != hash then Abort(HashMismatch)
    else if now < s.scheduled.value.executableAt then Abort(TimelockNotElapsed)
    else if installFails then Abort(InstallRefused)
    else Commit(s.(previousVersion := Some(if s.version.Some? then s.version.value else 1),
                   scheduled := None,
                   installs := s.installs + [Install(hash, SingleAdminMode)]))
  }

  function ExecuteUpgrade(s: State, id: U64, expectedNonce: U64, installFails: bool): Outcome<State, Fault> {
    if id !in s.ms.proposals then Abort(FromMultisig(M.ProposalNotFound))
    else
      var action := s.ms.proposals[id].action;
      match M.Execute(s.ms, id, action, expectedNonce, installFails)
      case Abort(e) => Abort(FromMultisig(e))
      case Commit(ms) => Commit(s.(ms := ms, installs := s.installs + [Install(action.wasmHash, MultisigMode)]))
  }

  function SetVersion(s: State, auth: set<Address>, version: U32): Outcome<State, Fault> {
    if AdminGate(s, auth).Some? then Abort(AdminGate(s, auth).value)
    else Commit(s.(version := Some(version)))
  }
}
