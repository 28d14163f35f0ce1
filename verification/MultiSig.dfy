/** The multisig contract: signer set, proposals with signer snapshots, execution nonce (multisig.rs). */
module MultiSig {
  import opened Prelude
  import opened MultiSigSpec
  import Spec = MultiSigSpec

  class MultiSig {
    var config: Option<Config>
    var proposals: map<U64, Proposal>
    var counter: U64
    var nonce: U64
    var effects: seq<Effect>

    function View(): State
      reads this
    {
      State(config, proposals, counter, nonce, effects)
    }

    constructor ()
      ensures View() == EMPTY
    {
      config, proposals, counter, nonce, effects := None, map[], 0, 0, [];
    }

    method Init(signers: seq<Address>, threshold: U32) returns (failure: Option<Fault>)
      modifies this
      ensures Follows(old(View()), View(), failure, Spec.Init(old(View()), signers, threshold))
    {
      if config.Some? {
        return Some(AlreadyInitialized);
      }
      if threshold == 0 || threshold > |signers| {
        return Some(InvalidThreshold);
      }
      var seen: seq<Address> := [];
      for i := 0 to |signers|
        invariant seen == signers[..i] && Distinct(seen)
      {
        if signers[i] in seen {
          return Some(AlreadySigner);
        }
        seen := seen + [signers[i]];
      }
      assert seen == signers;
      config, counter, nonce := Some(Config(signers, threshold)), 0, 0;
      return None;
    }

    method RequireSigner(auth: set<Address>, caller: Address) returns (failure: Option<Fault>)
      ensures match Spec.Govern(View(), auth, caller)
              case Commit(c) => failure == None && config == Some(c)
              case Abort(e) => failure == Some(e)
    {
      if caller !in auth {
        return Some(Unauthorized);
      }
      if config.None? {
        return Some(NotInitialized);
      }
      if caller !in config.value.signers {
        return Some(NotSigner);
      }
      return None;
    }

    method Propose(auth: set<Address>, proposer: Address, action: Action) returns (failure: Option<Fault>)
      modifies this
      ensures Follows(old(View()), View(), failure, Spec.Propose(old(View()), auth, proposer, action))
    {
      failure := RequireSigner(auth, proposer);
      if failure.Some? {
        return;
      }
      if counter == U64_MAX {
        return Some(Overflow);
      }
      counter := counter + 1;
      var proposal := Proposal(action, [], false, config.value.signers, config.value.threshold, None);
      proposals := proposals[counter := proposal];
    }

    method Approve(auth: set<Address>, id: U64, signer: Address) returns (failure: Option<Fault>)
      modifies this`proposals
      ensures Follows(old(View()), View(), failure, Spec.Approve(old(View()), auth, id, signer))
    {
      if signer !in auth {
        return Some(Unauthorized);
      }
      if id !in proposals {
        return Some(ProposalNotFound);
      }
      var proposal := proposals[id];
      if signer !in proposal.signers {
        return Some(NotSigner);
      }
      if proposal.executed {
        return Some(AlreadyExecuted);
      }
      if signer in proposal.approvals {
        return Some(AlreadyApproved);
      }
      proposal := proposal.(approvals := proposal.approvals + [signer]);
      proposals := proposals[id := proposal];
      return None;
    }

    method CanExecute(id: U64) returns (answer: Outcome<bool, Fault>)
      ensures answer == if id in proposals then Commit(Ready(proposals[id])) else Abort(ProposalNotFound)
    {
      if id !in proposals {
        return Abort(ProposalNotFound);
      }
      var proposal := proposals[id];
      return Commit(!proposal.executed && |proposal.approvals| >= proposal.threshold);
    }

    /** `actionFails` says whether the bound action aborts the transaction when it is run. */
    method Execute(id: U64, expected: Action, expectedNonce: U64, actionFails: bool) returns (failure: Option<Fault>)
      modifies this
      ensures Follows(old(View()), View(), failure, Spec.Execute(old(View()), id, expected, expectedNonce, actionFails))
    {
      if id !in proposals {
        return Some(ProposalNotFound);
      }
      if proposals[id].executed {
        return Some(AlreadyExecuted);
      }
      if proposals[id].action != expected {
        return Some(ActionMismatch);
      }
      var executable := CanExecute(id);
      if !executable.state {
        return Some(ThresholdNotMet);
      }
      if expectedNonce != nonce {
        return Some(NonceMismatch);
      }
      if actionFails {
        return Some(ActionFailed);
      }
      if nonce == U64_MAX {
        return Some(Overflow);
      }
      effects := effects + [Effect(id, proposals[id].action)];
      MarkExecuted(id, nonce);
      nonce := nonce + 1;
      return None;
    }

    method MarkExecuted(id: U64, usedNonce: U64)
      requires id in proposals && Ready(proposals[id])
      modifies this`proposals
      ensures proposals == old(proposals)[id := old(proposals)[id].(executed := true, executedNonce := Some(usedNonce))]
    {
      proposals := proposals[id := proposals[id].(executed := true, executedNonce := Some(usedNonce))];
    }

    static method Rebuild(signers: seq<Address>, target: Address) returns (rest: seq<Address>)
      ensures rest == Without(signers, target)
    {
      rest := [];
      for i := 0 to |signers|
        invariant rest == Without(signers[..i], target)
      {
        assert signers[..i + 1][..i] == signers[..i];
        if signers[i] != target {
          rest := rest + [signers[i]];
        }
      }
      assert signers[..|signers|] == signers;
    }

    method RemoveSigner(auth: set<Address>, caller: Address, target: Address) returns (failure: Option<Fault>)
      modifies this`config
      ensures Follows(old(View()), View(), failure, Spec.RemoveSigner(old(View()), auth, caller, target))
    {
      failure := RequireSigner(auth, caller);
      if failure.Some? {
        return;
      }
      if target !in config.value.signers {
        return Some(NotSigner);
      }
      if |config.value.signers| - 1 < config.value.threshold {
        return Some(RemovalWouldBreakThreshold);
      }
      var rest := Rebuild(config.value.signers, target);
      config := Some(config.value.(signers := rest));
    }

    method AddSigner(auth: set<Address>, caller: Address, newSigner: Address) returns (failure: Option<Fault>)
      modifies this`config
      ensures Follows(old(View()), View(), failure, Spec.AddSigner(old(View()), auth, caller, newSigner))
    {
      failure := RequireSigner(auth, caller);
      if failure.Some? {
        return;
      }
      if newSigner in config.value.signers {
        return Some(AlreadySigner);
      }
      config := Some(config.value.(signers := config.value.signers + [newSigner]));
    }

    method RotateSigners(auth: set<Address>, caller: Address, add: seq<Address>, remove: seq<Address>,
                         newThreshold: Option<U32>) returns (failure: Option<Fault>)
      modifies this`config
      ensures Follows(old(View()), View(), failure,
                      Spec.RotateSigners(old(View()), auth, caller, add, remove, newThreshold))
    {
      failure := RequireSigner(auth, caller);
      if failure.Some? {
        return;
      }
      var before, signers := config.value.signers, config.value.signers;
      for i := 0 to |remove|
        invariant View() == old(View())
        invariant RemoveAll(before, remove) == RemoveAll(signers, remove[i..])
      {
        if remove[i] !in signers {
          return Some(NotSigner);
        }
        signers := Rebuild(signers, remove[i]);
        assert remove[i..][1..] == remove[i + 1..];
      }
      ghost var kept := signers;
      for i := 0 to |add|
        invariant View() == old(View())
        invariant AddAll(kept, add) == AddAll(signers, add[i..])
      {
        if add[i] in signers {
          return Some(AlreadySigner);
        }
        signers := signers + [add[i]];
        assert add[i..][1..] == add[i + 1..];
      }
      var threshold := if newThreshold.Some? then newThreshold.value else config.value.threshold;
      if threshold == 0 || threshold > |signers| {
        return Some(RemovalWouldBreakThreshold);
      }
      config := Some(Config(signers, threshold));
    }
  }
}
