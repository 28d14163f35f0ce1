/** Where proposals, executions and signer sets come from: the configuration and the calls behind them. */
module MultiSigOrigins {
  import opened Prelude
  import opened MultiSigSpec
  import opened MultiSigProofs

  // ---------------------------------------------------------------------------------------------
  // Proposals
  // ---------------------------------------------------------------------------------------------

  /** In state `s`, call `c` proposes `p`: its action, by a signer who signed, under the configuration of
      that moment, with nothing approved yet. */
  predicate Proposes(s: State, c: Call, p: Proposal) {
    && c.op.DoPropose? && c.op.action == p.action
    && c.op.proposer in c.auth && c.op.proposer in p.signers
    && s.config == Some(Config(p.signers, p.threshold))
  }

  lemma NewProposal(s: State, c: Call, id: U64)
    requires Inv(s) && id !in s.proposals && id in Next(s, c).proposals
    ensures Proposes(s, c, Next(s, c).proposals[id])
    ensures id == s.counter + 1 && Next(s, c).proposals[id].approvals == [] && !Next(s, c).proposals[id].executed
  {
  }

  /** Main result: behind every proposal of a run there is a call that proposed its action, signed by a
      signer of the time; its snapshot is the configuration in force just before that call. */
  lemma {:induction false} ProposalOrigin(s: State, calls: seq<Call>, id: U64) returns (k: nat)
    requires Inv(s) && id !in s.proposals && id in Run(s, calls).proposals
    ensures k < |calls| && Proposes(Run(s, calls[..k]), calls[k], Run(s, calls).proposals[id])
    decreases |calls|
  {
    var s' := Next(s, calls[0]);
    StepKeepsInv(s, calls[0]);
    if id in s'.proposals {
      NewProposal(s, calls[0], id);
      ProposalsAreFinal(s', calls[1..], id);
      k := 0;
      assert Run(s, calls[..0]) == s;
    } else {
      k := ProposalOrigin(s', calls[1..], id);
      assert calls[..k + 1][0] == calls[0] && calls[..k + 1][1..] == calls[1..][..k];
      k := k + 1;
    }
  }

  /** Main result: every executed proposal was approved by at least the threshold, and by signers, of
      the configuration that was in force when it was proposed. */
  lemma ExecutedUnderItsConfig(calls: seq<Call>, id: U64) returns (k: nat)
    requires id in Run(EMPTY, calls).proposals && Run(EMPTY, calls).proposals[id].executed
    ensures k < |calls| && Run(EMPTY, calls[..k]).config.Some?
    ensures var config, p := Run(EMPTY, calls[..k]).config.value, Run(EMPTY, calls).proposals[id];
      && calls[k].op.DoPropose? && calls[k].op.action == p.action
      && Distinct(p.approvals) && |p.approvals| >= config.threshold
      && forall a :: a in p.approvals ==> a in config.signers
  {
    RunKeepsInv(EMPTY, calls);
    k := ProposalOrigin(EMPTY, calls, id);
    var p := Run(EMPTY, calls).proposals[id];
    assert SoundProposal(p);
    forall a | a in p.approvals
      ensures a in p.signers
    {
      assert a in ToSet(p.approvals);
    }
  }

  // ---------------------------------------------------------------------------------------------
  // Exactly when the calls go through
  // ---------------------------------------------------------------------------------------------

  /** Main result: in every reachable state proposing, approving and executing go through exactly under
      these conditions on the call, the proposal, its snapshot and the nonce. */
  lemma ProposalCallsExact(
    calls: seq<Call>, auth: set<Address>, who: Address, action: Action, id: U64, nonce: U64, fails: bool)
    ensures var s := Run(EMPTY, calls); id in s.proposals <==> 1 <= id <= s.counter
    ensures var s := Run(EMPTY, calls);
      Propose(s, auth, who, action).Commit?
      <==> who in auth && s.config.Some? && who in s.config.value.signers && s.counter < U64_MAX
    ensures var s := Run(EMPTY, calls);
      Approve(s, auth, id, who).Commit?
      <==> && who in auth && id in s.proposals && who in s.proposals[id].signers
           && s.proposals[id].executedNonce == None && who !in s.proposals[id].approvals
    ensures var s := Run(EMPTY, calls);
      Execute(s, id, action, nonce, fails).Commit?
      <==> && id in s.proposals && s.proposals[id].executedNonce == None
           && s.proposals[id].action == action && |s.proposals[id].approvals| >= s.proposals[id].threshold
           && nonce == |s.effects| < U64_MAX && !fails
  {
    RunKeepsInv(EMPTY, calls);
    var s := Run(EMPTY, calls);
    if id in s.proposals {
      assert SoundProposal(s.proposals[id]);
    }
  }

  /** Main result: a signer list can be initialised once, with distinct signers and a threshold they
      can meet; later a current signer who signs can add a newcomer, and remove a signer as long as
      the rest can still meet the threshold. Those are the new sets. */
  lemma SignerCallsExact(
    calls: seq<Call>, auth: set<Address>, who: Address, other: Address, signers: seq<Address>, t: U32)
    ensures var s := Run(EMPTY, calls); var r := MultiSigSpec.Init(s, signers, t);
      && (r.Commit? <==> s.config.None? && Distinct(signers) && 1 <= t <= |signers|)
      && (r.Commit? ==> r.state == s.(config := Some(Config(signers, t)), counter := 0))
    ensures var s := Run(EMPTY, calls); var r := AddSigner(s, auth, who, other);
      && (r.Commit? <==>
            who in auth && s.config.Some? && who in s.config.value.signers && other !in s.config.value.signers)
      && (r.Commit? ==>
            var c, c' := s.config.value, r.state.config;
            && c'.Some? && c'.value.threshold == c.threshold && ToSet(c'.value.signers) == ToSet(c.signers) + {other}
            && r.state == s.(config := c'))
    ensures var s := Run(EMPTY, calls); var r := RemoveSigner(s, auth, who, other);
      && (r.Commit? <==>
            && who in auth && s.config.Some? && who in s.config.value.signers && other in s.config.value.signers
            && |s.config.value.signers| > s.config.value.threshold)
      && (r.Commit? ==>
            var c, c' := s.config.value, r.state.config;
            && c'.Some? && c'.value.threshold == c.threshold && ToSet(c'.value.signers) == ToSet(c.signers) - {other}
            && r.state == s.(config := c'))
  {
    RunKeepsInv(EMPTY, calls);
    var s := Run(EMPTY, calls);
    if s.config.Some? {
      WithoutRemoves(s.config.value.signers, other);
      assert ToSet(s.config.value.signers + [other]) == ToSet(s.config.value.signers) + {other};
    }
  }

  // ---------------------------------------------------------------------------------------------
  // Self-government
  // ---------------------------------------------------------------------------------------------

  /** Some signer of the configuration signed the call. */
  predicate SignedBySigner(config: Config, c: Call) {
    exists a :: a in c.auth && a in config.signers
  }

  lemma ChangeIsGoverned(s: State, c: Call)
    requires s.config.Some? && Next(s, c).config != s.config
    ensures SignedBySigner(s.config.value, c)
    ensures c.op.DoRemove? || c.op.DoAdd? || c.op.DoRotate?
    ensures c.op.DoRotate? ==>
              Rotated(s.config.value, c.op.add, c.op.remove, c.op.newThreshold) == Commit(Next(s, c).config.value)
  {
    match c.op
    case DoRemove(caller, _) => assert caller in c.auth && caller in s.config.value.signers;
    case DoAdd(caller, _) => assert caller in c.auth && caller in s.config.value.signers;
    case DoRotate(caller, _, _, _) => assert caller in c.auth && caller in s.config.value.signers;
    case _ =>
  }

  /** Main result: once there is a configuration, every change of it during a run is a removal, an
      addition or a rotation that a signer of the configuration before it signed. */
  lemma OnlySignersChangeSigners(calls: seq<Call>, k: nat)
    requires k < |calls| && Run(EMPTY, calls[..k]).config.Some?
    requires Run(EMPTY, calls[..k + 1]).config != Run(EMPTY, calls[..k]).config
    ensures SignedBySigner(Run(EMPTY, calls[..k]).config.value, calls[k])
    ensures calls[k].op.DoRemove? || calls[k].op.DoAdd? || calls[k].op.DoRotate?
  {
    RunOneMore(EMPTY, calls[..k], calls[k]);
    assert calls[..k + 1] == calls[..k] + [calls[k]];
    ChangeIsGoverned(Run(EMPTY, calls[..k]), calls[k]);
  }

  lemma {:induction false} RunOneMore(s: State, calls: seq<Call>, c: Call)
    ensures Run(s, calls + [c]) == Next(Run(s, calls), c)
    decreases |calls|
  {
    if calls == [] {
      assert [c][1..] == [] && calls + [c] == [c];
      assert Run(Next(s, c), []) == Next(s, c);
    } else {
      assert (calls + [c])[1..] == calls[1..] + [c];
      RunOneMore(Next(s, calls[0]), calls[1..], c);
    }
  }

  // ---------------------------------------------------------------------------------------------
  // Reasons
  // ---------------------------------------------------------------------------------------------

  /** Who acts in a call, and the proposal it is about, as far as there are. */
  function Actor(c: Call): Option<Address> {
    match c.op
    case DoPropose(proposer, _) => Some(proposer)
    case DoApprove(_, signer) => Some(signer)
    case DoRemove(caller, _) => Some(caller)
    case DoAdd(caller, _) => Some(caller)
    case DoRotate(caller, _, _, _) => Some(caller)
    case _ => None
  }

  function About(s: State, c: Call): Option<Proposal> {
    match c.op
    case DoApprove(id, _) => if id in s.proposals then Some(s.proposals[id]) else None
    case DoExecute(id, _, _, _) => if id in s.proposals then Some(s.proposals[id]) else None
    case _ => None
  }

  /** Somebody who should be a signer is not. */
  predicate SignerMissing(s: State, c: Call) {
    match c.op
    case DoApprove(_, signer) => About(s, c).Some? && signer !in About(s, c).value.signers
    case DoRemove(caller, target) =>
      s.config.Some? && (caller !in s.config.value.signers || target !in s.config.value.signers)
    case DoRotate(caller, _, remove, _) => s.config.Some? && (caller !in s.config.value.signers || remove != [])
    case _ => Actor(c).Some? && s.config.Some? && Actor(c).value !in s.config.value.signers
  }

  /** What each reason means. */
  predicate True(s: State, c: Call, e: Fault) {
    var p := About(s, c);
    match e
    case AlreadyInitialized => c.op.DoInit? && s.config.Some?
    case NotInitialized => s.config.None?
    case Unauthorized => Actor(c).Some? && Actor(c).value !in c.auth
    case NotSigner => SignerMissing(s, c)
    case AlreadyApproved => c.op.DoApprove? && p.Some? && c.op.signer in p.value.approvals
    case ProposalNotFound => (c.op.DoApprove? || c.op.DoExecute?) && c.op.id !in s.proposals
    case AlreadyExecuted => p.Some? && p.value.executed
    case ThresholdNotMet => c.op.DoExecute? && p.Some? && |p.value.approvals| < p.value.threshold
    case InvalidThreshold => c.op.DoInit? && !(1 <= c.op.threshold <= |c.op.signers|)
    case ActionMismatch => c.op.DoExecute? && p.Some? && p.value.action != c.op.expected
    case NonceMismatch => c.op.DoExecute? && c.op.expectedNonce != s.nonce
    case RemovalWouldBreakThreshold =>
      || (c.op.DoRemove? && s.config.Some? && |s.config.value.signers| <= s.config.value.threshold)
      || c.op.DoRotate?
    case AlreadySigner =>
      || (c.op.DoInit? && !Distinct(c.op.signers))
      || (c.op.DoAdd? && s.config.Some? && c.op.newSigner in s.config.value.signers)
      || (c.op.DoRotate? && c.op.add != [])
    case ActionFailed => c.op.DoExecute? && c.op.actionFails
    case Overflow => (c.op.DoPropose? && s.counter == U64_MAX) || (c.op.DoExecute? && s.nonce == U64_MAX)
  }

  lemma {:induction false} RemovalTells(signers: seq<Address>, remove: seq<Address>)
    requires RemoveAll(signers, remove).Abort?
    ensures remove != [] && RemoveAll(signers, remove).error == NotSigner
    decreases |remove|
  {
    if remove == [] {
    } else if remove[0] in signers {
      RemovalTells(Without(signers, remove[0]), remove[1..]);
    }
  }

  lemma {:induction false} AdditionTells(signers: seq<Address>, add: seq<Address>)
    requires AddAll(signers, add).Abort?
    ensures add != [] && AddAll(signers, add).error == AlreadySigner
    decreases |add|
  {
    if add == [] {
    } else if add[0] !in signers {
      AdditionTells(signers + [add[0]], add[1..]);
    }
  }

  /** Main result: the reason a failing call gives is true of it. */
  lemma ReasonsAreTrue(s: State, c: Call)
    requires Step(s, c).Abort?
    ensures True(s, c, Step(s, c).error)
  {
    match c.op
    case DoRotate(_, add, remove, _) =>
      if s.config.Some? {
        var kept := RemoveAll(s.config.value.signers, remove);
        if kept.Abort? {
          RemovalTells(s.config.value.signers, remove);
        } else if AddAll(kept.state, add).Abort? {
          AdditionTells(kept.state, add);
        }
      }
    case _ =>
  }
}
