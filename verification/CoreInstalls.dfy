/** In multisig mode the code replacements and the executed proposals are the same thing. */
module CoreInstalls {
  import opened Prelude
  import opened CoreSpec
  import opened CoreProofs
  import M = MultiSigSpec
  import MP = MultiSigProofs

  /** Under a multisig the n-th replacement is the n-th effect of its proposals. */
  ghost predicate InstallsAreEffects(s: State) {
    && MP.Inv(s.ms)
    && (s.ms.config.Some? ==>
          && |s.installs| == |s.ms.effects|
          && forall n :: 0 <= n < |s.installs| ==>
               s.installs[n] == Install(s.ms.effects[n].action.wasmHash, MultisigMode))
  }

  /** The multisig call behind a core call. */
  function Underlying(s: State, c: Call): Option<MP.Call> {
    match c.op
    case DoInit(signers, threshold) => Some(MP.Call(c.auth, MP.DoInit(signers, threshold)))
    case DoPropose(proposer, hash) => Some(MP.Call(c.auth, MP.DoPropose(proposer, M.Upgrade(hash))))
    case DoApprove(id, signer) => Some(MP.Call(c.auth, MP.DoApprove(id, signer)))
    case DoRemoveSigner(caller, target) => Some(MP.Call(c.auth, MP.DoRemove(caller, target)))
    case DoAddSigner(caller, newSigner) => Some(MP.Call(c.auth, MP.DoAdd(caller, newSigner)))
    case DoRotateSigners(caller, add, remove, t) => Some(MP.Call(c.auth, MP.DoRotate(caller, add, remove, t)))
    case DoExecuteUpgrade(id, nonce, fails) =>
      if id in s.ms.proposals
      then Some(MP.Call(c.auth, MP.DoExecute(id, s.ms.proposals[id].action, nonce, fails))) else None
    case _ => None
  }

  lemma StepOnMultisig(s: State, c: Call)
    requires Step(s, c).Commit?
    ensures match Underlying(s, c)
            case None => Step(s, c).state.ms == s.ms
            case Some(m) => MP.Step(s.ms, m) == Commit(Step(s, c).state.ms)
  {
  }

  /** A call that does not touch the multisig leaves its effects; under a multisig it installs nothing. */
  lemma OthersInstallNothing(s: State, c: Call)
    requires Inv(s) && Step(s, c).Commit? && Underlying(s, c).None?
    ensures Step(s, c).state.ms == s.ms
    ensures s.ms.config.Some? ==> Step(s, c).state.installs == s.installs
  {
  }

  lemma MultisigCallsInstallNothing(s: State, c: Call)
    requires Inv(s) && Step(s, c).Commit? && Underlying(s, c).Some?
    requires !c.op.DoExecuteUpgrade? && !c.op.DoInit?
    ensures var s' := Step(s, c).state;
      && s'.ms.effects == s.ms.effects && s'.installs == s.installs && s.ms.config.Some?
  {
  }

  /** Calls that are neither executions nor initialisers leave effects and replacements to the others. */
  lemma EffectsUntouched(s: State, c: Call)
    requires Inv(s) && InstallsAreEffects(s) && Step(s, c).Commit?
    requires !c.op.DoExecuteUpgrade? && !c.op.DoInit?
    ensures var s' := Step(s, c).state;
      && s'.ms.effects == s.ms.effects
      && (s'.ms.config.Some? ==> s.ms.config.Some? && s'.installs == s.installs)
  {
    if Underlying(s, c).None? {
      OthersInstallNothing(s, c);
    } else {
      MultisigCallsInstallNothing(s, c);
    }
  }

  lemma ExecutionInstalls(s: State, id: U64, expectedNonce: U64, installFails: bool)
    requires ExecuteUpgrade(s, id, expectedNonce, installFails).Commit?
    ensures var s' := ExecuteUpgrade(s, id, expectedNonce, installFails).state;
      && id in s.ms.proposals && s'.ms.config == s.ms.config
      && s'.ms.effects == s.ms.effects + [M.Effect(id, s.ms.proposals[id].action)]
      && s'.installs == s.installs + [Install(s.ms.proposals[id].action.wasmHash, MultisigMode)]
  {
  }

  lemma NothingInstalledYet(s: State)
    requires Inv(s)
    ensures s.gov.mode.None? ==> s.installs == []
  {
    if s.installs != [] {
      assert s.gov.mode == Some(s.installs[0].via);
    }
  }

  lemma StepKeepsEffects(s: State, c: Call)
    requires Inv(s) && InstallsAreEffects(s) && Step(s, c).Commit?
    ensures InstallsAreEffects(Step(s, c).state)
  {
    StepOnMultisig(s, c);
    if Underlying(s, c).Some? {
      MP.StepKeepsInv(s.ms, Underlying(s, c).value);
    }
    if c.op.DoInit? {
      NothingInstalledYet(s);
      assert s.installs == [] && s.ms.effects == [];
    } else if c.op.DoExecuteUpgrade? {
      ExecutionInstalls(s, c.op.id, c.op.expectedNonce, c.op.installFails);
    } else {
      EffectsUntouched(s, c);
    }
  }

  lemma {:induction false} RunKeepsEffects(calls: seq<Call>, k: nat)
    requires k <= |calls|
    ensures InstallsAreEffects(At(calls, k))
  {
    if k == 0 {
    } else {
      RunKeepsInv(calls, k - 1);
      RunKeepsEffects(calls, k - 1);
      if Committed(calls, k - 1) {
        StepKeepsEffects(At(calls, k - 1), calls[k - 1]);
      }
    }
  }

  /** Proposal `id` made the n-th replacement with enough distinct approvals of its signers. */
  predicate Authorized(s: State, id: U64, n: nat) {
    && id in s.ms.proposals && n < |s.installs|
    && var p := s.ms.proposals[id];
    && p.executed && p.executedNonce.Some? && p.executedNonce.value == n
    && s.installs[n] == Install(p.action.wasmHash, MultisigMode)
    && M.Distinct(p.approvals) && M.ToSet(p.approvals) <= M.ToSet(p.signers) && |p.approvals| >= p.threshold
  }

  /** Main result: at any point of any run in multisig mode, code replacements and executed proposals
      correspond one to one by the nonce, and each proposal behind a replacement carried the
      approvals its signer snapshot demands. */
  lemma InstallsMatchProposals(calls: seq<Call>, k: nat)
    requires k <= |calls| && At(calls, k).gov.mode == Some(MultisigMode)
    ensures var s := At(calls, k);
      && |s.installs| == s.ms.nonce == |s.ms.effects|
      && (forall n :: 0 <= n < |s.installs| ==> Authorized(s, s.ms.effects[n].proposalId, n))
      && (forall id :: id in s.ms.proposals && s.ms.proposals[id].executed ==>
            s.ms.proposals[id].executedNonce.Some? && Authorized(s, id, s.ms.proposals[id].executedNonce.value))
  {
    RunKeepsInv(calls, k);
    RunKeepsEffects(calls, k);
    var s := At(calls, k);
    forall n | 0 <= n < |s.installs|
      ensures Authorized(s, s.ms.effects[n].proposalId, n)
    {
      assert MP.SoundProposal(s.ms.proposals[s.ms.effects[n].proposalId]);
    }
    forall id | id in s.ms.proposals && s.ms.proposals[id].executed
      ensures s.ms.proposals[id].executedNonce.Some? && Authorized(s, id, s.ms.proposals[id].executedNonce.value)
    {
      assert MP.SoundProposal(s.ms.proposals[id]);
    }
  }
}
