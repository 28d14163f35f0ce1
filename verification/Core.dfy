/** The grainlify-core contract object, with its governance and multisig parts. */
module Core {
  import opened Prelude
  import opened CoreSpec
  import Spec = CoreSpec
  import M = MultiSigSpec
  import Governance
  import MultiSig

  class GrainlifyContract {
    const gov: Governance.GovernanceContract
    const ms: MultiSig.MultiSig
    var admin: Option<Address>
    var version: Option<U32>
    var previousVersion: Option<U32>
    var delay: Option<U64>
    var scheduled: Option<Scheduled>
    var installs: seq<Install>

    function View(): State
      reads this, gov, ms
    {
      State(gov.View(), ms.View(), admin, version, previousVersion, delay, scheduled, installs)
    }

    constructor ()
      ensures View() == EMPTY
      ensures fresh(gov) && fresh(ms)
    {
      admin, version, previousVersion, delay, scheduled, installs := None, None, None, None, None, [];
      gov := new Governance.GovernanceContract();
      ms := new MultiSig.MultiSig();
    }

    method Init(signers: seq<Address>, threshold: U32) returns (failure: Option<Fault>)
      modifies this, gov, ms
      ensures Follows(old(View()), View(), failure, Spec.Init(old(View()), signers, threshold))
    {
      if version.Some? {
        return Some(AlreadyInitialized);
      }
      if gov.mode.Some? {
        return Some(ModeClaimed);
      }
      var fault := ms.Init(signers, threshold);
      if fault.Some? {
        return Some(FromMultisig(fault.value));
      }
      gov.mode := Some(MultisigMode);
      version := Some(VERSION);
      return None;
    }

    method InitAdmin(newAdmin: Address) returns (failure: Option<Fault>)
      modifies this, gov
      ensures Follows(old(View()), View(), failure, Spec.InitAdmin(old(View()), newAdmin))
    {
      if admin.Some? {
        return Some(AlreadyInitialized);
      }
      if gov.mode.Some? {
        return Some(ModeClaimed);
      }
      admin := Some(newAdmin);
      gov.mode := Some(SingleAdminMode);
      version := Some(VERSION);
      return None;
    }

    method RequireAdmin(auth: set<Address>) returns (failure: Option<Fault>)
      ensures failure == Spec.AdminGate(View(), auth)
    {
      if admin.None? {
        return Some(AdminNotSet);
      }
      if admin.value !in auth {
        return Some(NotSigned);
      }
      return None;
    }

    method SetUpgradeDelay(auth: set<Address>, seconds: U64) returns (failure: Option<Fault>)
      modifies this`delay
      ensures Follows(old(View()), View(), failure, Spec.SetUpgradeDelay(old(View()), auth, seconds))
    {
      failure := RequireAdmin(auth);
      if failure.Some? {
        return;
      }
      if seconds < MIN_UPGRADE_DELAY {
        return Some(DelayBelowMinimum);
      }
      delay := Some(seconds);
    }

    method ScheduleUpgrade(auth: set<Address>, hash: Hash, now: U64) returns (failure: Option<Fault>)
      modifies this`scheduled
      ensures Follows(old(View()), View(), failure, Spec.ScheduleUpgrade(old(View()), auth, hash, now))
    {
      failure := RequireAdmin(auth);
      if failure.Some? {
        return;
      }
      var wait := if delay.Some? then delay.value else DEFAULT_UPGRADE_DELAY;
      scheduled := Some(Scheduled(hash, now, SatAdd(now, wait)));
    }

    method Upgrade(auth: set<Address>, hash: Hash, now: U64, installFails: bool) returns (failure: Option<Fault>)
      modifies this
      ensures Follows(old(View()), View(), failure, Spec.Upgrade(old(View()), auth, hash, now, installFails))
    {
      failure := RequireAdmin(auth);
      if failure.Some? {
        return;
      }
      if scheduled.None? {
        return Some(NoScheduledUpgrade);
      }
      if scheduled.value.hash != hash {
        return Some(HashMismatch);
      }
      if now < scheduled.value.executableAt {
        return Some(TimelockNotElapsed);
      }
      if installFails {
        return Some(InstallRefused);
      }
      previousVersion := Some(if version.Some? then version.value else 1);
      installs := installs + [Install(hash, SingleAdminMode)];
      scheduled := None;
    }

    method ExecuteUpgrade(id: U64, expectedNonce: U64, installFails: bool) returns (failure: Option<Fault>)
      modifies this, ms
      ensures Follows(old(View()), View(), failure, Spec.ExecuteUpgrade(old(View()), id, expectedNonce, installFails))
    {
      if id !in ms.proposals {
        return Some(FromMultisig(M.ProposalNotFound));
      }
      var action := ms.proposals[id].action;
      var fault := ms.Execute(id, action, expectedNonce, installFails);
      if fault.Some? {
        return Some(FromMultisig(fault.value));
      }
      installs := installs + [Install(action.wasmHash, MultisigMode)];
      return None;
    }

    method SetVersion(auth: set<Address>, newVersion: U32) returns (failure: Option<Fault>)
      modifies this`version
      ensures Follows(old(View()), View(), failure, Spec.SetVersion(old(View()), auth, newVersion))
    {
      failure := RequireAdmin(auth);
      if failure.None? {
        version := Some(newVersion);
      }
    }
  }
}
