/** Safety and liveness of the multisig over every run of its entry points. */
module MultiSigProofs {
  import opened Prelude
  import opened MultiSigSpec

  datatype Op =
    | DoInit(signers: seq<Address>, threshold: U32)
    | DoPropose(proposer: Address, action: Action)
    | DoApprove(id: U64, signer: Address)
    | DoExecute(id: U64, expected: Action, expectedNonce: U64, actionFails: bool)
    | DoRemove(caller: Address, target: Address)
    | DoAdd(caller: Address, newSigner: Address)
    | DoRotate(caller: Address, add: seq<Address>, remove: seq<Address>, newThreshold: Option<U32>)

  /** A transaction: who signed it and what it calls. */
  datatype Call = Call(auth: set<Address>, op: Op)

  function Step(s: State, c: Call): Outcome<State, Fault> {
    match c.op
    case DoInit(signers, threshold) => Init(s, signers, threshold)
    case DoPropose(proposer, action) => Propose(s, c.auth, proposer, action)
    case DoApprove(id, signer) => Approve(s, c.auth, id, signer)
    case DoExecute(id, expected, expectedNonce, actionFails) => Execute(s, id, expected, expectedNonce, actionFails)
    case DoRemove(caller, target) => RemoveSigner(s, c.auth, caller, target)
    case DoAdd(caller, newSigner) => AddSigner(s, c.auth, caller, newSigner)
    case DoRotate(caller, add, remove, newThreshold) => RotateSigners(s, c.auth, caller, add, remove, newThreshold)
  }

  /** An aborted transaction leaves no trace. */
  function Next(s: State, c: Call): State {
    match Step(s, c)
    case Commit(s') => s'
    case Abort(_) => s
  }

  function Run(s: State, calls: seq<Call>): State
    decreases |calls|
  {
    if calls == [] then s else Run(Next(s, calls[0]), calls[1..])
  }

  // ---------------------------------------------------------------------------------------------
  // Signer lists
  // ---------------------------------------------------------------------------------------------

  lemma DistinctAppend(s: seq<Address>, t: seq<Address>)
    requires Distinct(s) && Distinct(t) && forall a :: a in t ==> a !in s
    ensures Distinct(s + t)
  {
    forall i, j | 0 <= i < j < |s + t|
      ensures (s + t)[i] != (s + t)[j]
    {
      if i < |s| <= j {
        assert t[j - |s|] in t;
      }
    }
  }

  lemma {:induction false} WithoutRemoves(s: seq<Address>, x: Address)
    ensures forall a :: a in Without(s, x) <==> a in s && a != x
    ensures Distinct(s) ==> Distinct(Without(s, x))
    ensures x !in s ==> Without(s, x) == s
    ensures Distinct(s) && x in s ==> |Without(s, x)| == |s| - 1
  {
    if s == [] {
    } else {
      var front, last := s[..|s| - 1], s[|s| - 1];
      assert s == front + [last];
      WithoutRemoves(front, x);
      if Distinct(s) && last != x {
        assert last !in front;
        DistinctAppend(Without(front, x), [last]);
      }
    }
  }

  /** A list of removals goes through exactly when it names distinct current signers; it removes
      those and nothing else. */
  lemma {:induction false} RemoveAllRemoves(s: seq<Address>, remove: seq<Address>)
    requires Distinct(s)
    ensures var r := RemoveAll(s, remove);
      && (r.Commit? <==> Distinct(remove) && ToSet(remove) <= ToSet(s))
      && (r.Commit? ==> Distinct(r.state) && ToSet(r.state) == ToSet(s) - ToSet(remove)
                        && |r.state| == |s| - |remove|)
    decreases |remove|
  {
    if remove == [] {
    } else {
      assert remove == [remove[0]] + remove[1..];
      WithoutRemoves(s, remove[0]);
      if remove[0] in s {
        var s' := Without(s, remove[0]);
        RemoveAllRemoves(s', remove[1..]);
        assert ToSet(s') == ToSet(s) - {remove[0]};
        assert ToSet(remove) == {remove[0]} + ToSet(remove[1..]);
        assert Distinct(remove) <==> Distinct(remove[1..]) && remove[0] !in remove[1..];
      } else {
        assert remove[0] in ToSet(remove);
      }
    }
  }

  /** A list of additions goes through exactly when it names distinct newcomers. */
  lemma {:induction false} AddAllAdds(s: seq<Address>, add: seq<Address>)
    requires Distinct(s)
    ensures var r := AddAll(s, add);
      && (r.Commit? <==> Distinct(add) && ToSet(add) !! ToSet(s))
      && (r.Commit? ==> Distinct(r.state) && r.state == s + add && ToSet(r.state) == ToSet(s) + ToSet(add))
    decreases |add|
  {
    if add == [] {
    } else {
      assert add == [add[0]] + add[1..];
      if add[0] !in s {
        var s' := s + [add[0]];
        AddAllAdds(s', add[1..]);
        assert ToSet(s') == ToSet(s) + {add[0]};
        assert ToSet(add) == {add[0]} + ToSet(add[1..]);
        assert Distinct(add) <==> Distinct(add[1..]) && add[0] !in add[1..];
        assert s + add == s' + add[1..];
      } else {
        assert add[0] in ToSet(add) && add[0] in ToSet(s);
      }
    }
  }

  lemma {:induction false} DistinctLength(s: seq<Address>)
    requires Distinct(s)
    ensures |ToSet(s)| == |s|
  {
    if s == [] {
    } else {
      var front, last := s[..|s| - 1], s[|s| - 1];
      DistinctLength(front);
      assert ToSet(s) == ToSet(front) + {last};
      assert last !in front;
    }
  }

  /** Main result: a rotation succeeds exactly when the removals are distinct current signers, the
      additions distinct and not left over, and the threshold fits; it leaves (S minus R) plus A. */
  lemma RotationIsSetUpdate(c: Config, add: seq<Address>, remove: seq<Address>, newThreshold: Option<U32>)
    requires Distinct(c.signers)
    ensures
      var r := Rotated(c, add, remove, newThreshold);
      var t := if newThreshold.Some? then newThreshold.value else c.threshold;
      var target := (ToSet(c.signers) - ToSet(remove)) + ToSet(add);
      && (r.Commit? <==>
            && Distinct(remove) && ToSet(remove) <= ToSet(c.signers)
            && Distinct(add) && ToSet(add) !! ToSet(c.signers) - ToSet(remove)
            && 1 <= t <= |target|)
      && (r.Commit? ==> ToSet(r.state.signers) == target && r.state.threshold == t && Viable(r.state))
  {
    RemoveAllRemoves(c.signers, remove);
    var kept := RemoveAll(c.signers, remove);
    if kept.Commit? {
      AddAllAdds(kept.state, add);
      var all := AddAll(kept.state, add);
      if all.Commit? {
        DistinctLength(all.state);
      }
    }
  }

  // ---------------------------------------------------------------------------------------------
  // The invariant of every run
  // ---------------------------------------------------------------------------------------------

  /** A signer set that can still reach its own threshold. */
  predicate Viable(c: Config) {
    Distinct(c.signers) && 1 <= c.threshold <= |c.signers|
  }

  predicate SoundProposal(p: Proposal) {
    && Viable(Config(p.signers, p.threshold))
    && Distinct(p.approvals)
    && ToSet(p.approvals) <= ToSet(p.signers)
    && (p.executed <==> p.executedNonce.Some?)
    && (p.executed ==> |p.approvals| >= p.threshold)
  }

  /** The n-th effect belongs to exactly the proposal that consumed nonce n. */
  ghost predicate NoncesMatchEffects(s: State) {
    && |s.effects| == s.nonce
    && (forall n :: 0 <= n < s.nonce ==>
          && s.effects[n].proposalId in s.proposals
          && s.proposals[s.effects[n].proposalId].executedNonce == Some(n)
          && s.proposals[s.effects[n].proposalId].action == s.effects[n].action)
    && (forall id :: id in s.proposals && s.proposals[id].executedNonce.Some? ==>
          && s.proposals[id].executedNonce.value < s.nonce
          && s.effects[s.proposals[id].executedNonce.value].proposalId == id)
  }

  ghost predicate Inv(s: State) {
    && (s.config.Some? ==> Viable(s.config.value))
    && (s.config.None? ==> s.proposals == map[] && s.nonce == 0)
    && (forall id :: id in s.proposals <==> 1 <= id <= s.counter)
    && (forall id :: id in s.proposals ==> SoundProposal(s.proposals[id]))
    && NoncesMatchEffects(s)
  }

  lemma SignerStepKeepsViable(c: Config, target: Address)
    requires Viable(c)
    ensures target in c.signers && |c.signers| - 1 >= c.threshold ==> Viable(c.(signers := Without(c.signers, target)))
    ensures target !in c.signers ==> Viable(c.(signers := c.signers + [target]))
  {
    WithoutRemoves(c.signers, target);
  }

  lemma ExecuteKeepsInv(s: State, id: U64, expected: Action, expectedNonce: U64, actionFails: bool)
    requires Inv(s) && Execute(s, id, expected, expectedNonce, actionFails).Commit?
    ensures Inv(Execute(s, id, expected, expectedNonce, actionFails).state)
  {
    var s' := Execute(s, id, expected, expectedNonce, actionFails).state;
    assert s.proposals[id].executedNonce.None?;
    assert forall n :: 0 <= n < s.nonce ==> s.effects[n].proposalId != id && s'.effects[n] == s.effects[n];
  }

  lemma ApproveKeepsInv(s: State, auth: set<Address>, id: U64, signer: Address)
    requires Inv(s) && Approve(s, auth, id, signer).Commit?
    ensures Inv(Approve(s, auth, id, signer).state)
  {
    var p := s.proposals[id];
    var p' := p.(approvals := p.approvals + [signer]);
    assert ToSet(p'.approvals) == ToSet(p.approvals) + {signer};
    assert SoundProposal(p');
  }

  lemma StepKeepsInv(s: State, c: Call)
    requires Inv(s)
    ensures Inv(Next(s, c))
  {
    if Step(s, c).Commit? {
      match c.op
      case DoInit(signers, threshold) =>
      case DoPropose(proposer, action) =>
      case DoApprove(id, signer) => ApproveKeepsInv(s, c.auth, id, signer);
      case DoExecute(id, expected, expectedNonce, actionFails) =>
        ExecuteKeepsInv(s, id, expected, expectedNonce, actionFails);
      case DoRemove(caller, target) => SignerStepKeepsViable(s.config.value, target);
      case DoAdd(caller, newSigner) => SignerStepKeepsViable(s.config.value, newSigner);
      case DoRotate(caller, add, remove, newThreshold) =>
        RotationIsSetUpdate(s.config.value, add, remove, newThreshold);
    }
  }

  lemma {:induction false} RunKeepsInv(s: State, calls: seq<Call>)
    requires Inv(s)
    ensures Inv(Run(s, calls))
    decreases |calls|
  {
    if calls == [] {
    } else {
      StepKeepsInv(s, calls[0]);
      RunKeepsInv(Next(s, calls[0]), calls[1..]);
    }
  }

  /** Main result: in every reachable state the signers are distinct and can meet the threshold. */
  lemma SignersStayViable(calls: seq<Call>)
    ensures var s := Run(EMPTY, calls); s.config.Some? ==> Viable(s.config.value)
  {
    RunKeepsInv(EMPTY, calls);
  }

  // ---------------------------------------------------------------------------------------------
  // Execution: nonces, effects, finality
  // ---------------------------------------------------------------------------------------------

  /** Proposal `id` was executed with nonce `n`, and that ran its own action. */
  predicate ExecutedAt(s: State, id: U64, n: nat) {
    && n < |s.effects| && n <= U64_MAX
    && id in s.proposals && s.proposals[id].executed && s.proposals[id].executedNonce == Some(n)
    && s.effects[n] == Effect(id, s.proposals[id].action)
  }

  /** Main result: executed proposals and the nonces below the current one are in bijection. Each
      executed proposal carries enough distinct approvals of its snapshot signers, and its bound
      action is the effect at its nonce and at no other place. */
  lemma ExecutionsMatchNonces(calls: seq<Call>)
    ensures
      var s := Run(EMPTY, calls);
      && |s.effects| == s.nonce
      && (forall n :: 0 <= n < s.nonce ==> ExecutedAt(s, s.effects[n].proposalId, n))
      && (forall id :: id in s.proposals && s.proposals[id].executed ==>
            var p := s.proposals[id];
            && p.executedNonce.Some? && p.executedNonce.value < s.nonce
            && Distinct(p.approvals) && ToSet(p.approvals) <= ToSet(p.signers) && |p.approvals| >= p.threshold
            && forall n :: 0 <= n < s.nonce ==> (s.effects[n].proposalId == id <==> p.executedNonce == Some(n)))
      && (forall id :: id in s.proposals && !s.proposals[id].executed ==>
            forall n :: 0 <= n < s.nonce ==> s.effects[n].proposalId != id)
  {
    RunKeepsInv(EMPTY, calls);
    var s := Run(EMPTY, calls);
    forall n | 0 <= n < s.nonce
      ensures ExecutedAt(s, s.effects[n].proposalId, n)
    {
      assert SoundProposal(s.proposals[s.effects[n].proposalId]);
    }
    forall id | id in s.proposals && s.proposals[id].executed
      ensures
        var p := s.proposals[id];
        && p.executedNonce.Some? && p.executedNonce.value < s.nonce
        && Distinct(p.approvals) && ToSet(p.approvals) <= ToSet(p.signers) && |p.approvals| >= p.threshold
        && forall n :: 0 <= n < s.nonce ==> (s.effects[n].proposalId == id <==> p.executedNonce == Some(n))
    {
      assert SoundProposal(s.proposals[id]);
    }
    forall id | id in s.proposals && !s.proposals[id].executed
      ensures forall n :: 0 <= n < s.nonce ==> s.effects[n].proposalId != id
    {
      assert SoundProposal(s.proposals[id]);
    }
  }

  /** Later states keep a proposal's action, snapshot, threshold and approvals, all of it once it is
      executed, and every effect. */
  predicate KeepsProposal(s: State, s': State, id: U64) {
    && id in s.proposals && id in s'.proposals
    && s'.proposals[id].action == s.proposals[id].action
    && s'.proposals[id].signers == s.proposals[id].signers
    && s'.proposals[id].threshold == s.proposals[id].threshold
    && s.proposals[id].approvals <= s'.proposals[id].approvals
    && (s.proposals[id].executed ==> s'.proposals[id] == s.proposals[id])
    && s.effects <= s'.effects
  }

  lemma SignerChangeIsFinal(s: State, c: Call, id: U64)
    requires id in s.proposals && s.config.Some?
    requires c.op.DoInit? || c.op.DoRemove? || c.op.DoAdd? || c.op.DoRotate?
    ensures KeepsProposal(s, Next(s, c), id)
  {
  }

  lemma StepIsFinal(s: State, c: Call, id: U64)
    requires Inv(s) && id in s.proposals
    ensures KeepsProposal(s, Next(s, c), id)
  {
    match c.op
    case DoPropose(_, _) =>
    case DoApprove(_, _) =>
    case DoExecute(_, _, _, _) =>
    case _ => SignerChangeIsFinal(s, c, id);
  }

  /** Main result: whatever happens later, a proposal keeps its action, signer snapshot, threshold
      and collected approvals; once executed it never changes at all; effects are never undone. */
  lemma {:induction false} ProposalsAreFinal(s: State, calls: seq<Call>, id: U64)
    requires Inv(s) && id in s.proposals
    ensures KeepsProposal(s, Run(s, calls), id)
    decreases |calls|
  {
    if calls == [] {
    } else {
      StepIsFinal(s, calls[0], id);
      StepKeepsInv(s, calls[0]);
      ProposalsAreFinal(Next(s, calls[0]), calls[1..], id);
    }
  }

  /** Main result: a nonce that drove one execution cannot drive another one, however many calls lie
      in between and whichever proposal they name. */
  lemma NonceNotReplayable(s: State, first: Call, between: seq<Call>, second: Call)
    requires Inv(s) && first.op.DoExecute? && Step(s, first).Commit?
    requires second.op.DoExecute? && second.op.expectedNonce == first.op.expectedNonce
    ensures Step(Run(Next(s, first), between), second).Abort?
  {
    StepKeepsInv(s, first);
    ProposalsAreFinal(Next(s, first), between, first.op.id);
    RunKeepsInv(Next(s, first), between);
  }

  // ---------------------------------------------------------------------------------------------
  // Authority: approvals and executed actions
  // ---------------------------------------------------------------------------------------------

  predicate HasApproval(s: State, id: U64, who: Address) {
    id in s.proposals && who in s.proposals[id].approvals
  }

  lemma ApprovalIsSigned(s: State, c: Call, id: U64, who: Address)
    requires Inv(s) && !HasApproval(s, id, who) && HasApproval(Next(s, c), id, who)
    ensures c.op == DoApprove(id, who) && who in c.auth && who in Next(s, c).proposals[id].signers
  {
  }

  /** Main result: every approval a proposal counts was given by a call which that snapshot signer
      signed for that very proposal. */
  lemma {:induction false} ApprovalsAreSigned(s: State, calls: seq<Call>, id: U64, who: Address) returns (k: nat)
    requires Inv(s) && !HasApproval(s, id, who) && HasApproval(Run(s, calls), id, who)
    ensures k < |calls|
    ensures calls[k].op == DoApprove(id, who) && who in calls[k].auth && who in Run(s, calls).proposals[id].signers
    decreases |calls|
  {
    StepKeepsInv(s, calls[0]);
    var s' := Next(s, calls[0]);
    if HasApproval(s', id, who) {
      ApprovalIsSigned(s, calls[0], id, who);
      ProposalsAreFinal(s', calls[1..], id);
      k := 0;
    } else {
      k := ApprovalsAreSigned(s', calls[1..], id, who);
      k := k + 1;
    }
  }

  // ---------------------------------------------------------------------------------------------
  // Liveness: no rotation can strand a proposal
  // ---------------------------------------------------------------------------------------------

  /** The snapshot signers still to approve, in snapshot order. */
  function Missing(p: Proposal, upTo: nat): seq<Address>
    requires upTo <= |p.signers|
  {
    if upTo == 0 then []
    else Missing(p, upTo - 1) + if p.signers[upTo - 1] in p.approvals then [] else [p.signers[upTo - 1]]
  }

  /** One approval from each of `who`, each signed by that address alone. */
  function Approvals(id: U64, who: seq<Address>): seq<Call> {
    seq(|who|, i requires 0 <= i < |who| => Call({who[i]}, DoApprove(id, who[i])))
  }

  lemma {:induction false} MissingIsTheRest(p: Proposal, upTo: nat)
    requires upTo <= |p.signers| && Distinct(p.signers)
    ensures forall a :: a in Missing(p, upTo) <==> a in p.signers[..upTo] && a !in p.approvals
    ensures Distinct(Missing(p, upTo))
  {
    if upTo == 0 {
    } else {
      MissingIsTheRest(p, upTo - 1);
      assert p.signers[..upTo] == p.signers[..upTo - 1] + [p.signers[upTo - 1]];
      assert p.signers[upTo - 1] !in p.signers[..upTo - 1];
    }
  }

  /** `s` with further approvals on one proposal. */
  function WithApprovals(s: State, id: U64, who: seq<Address>): State
    requires id in s.proposals
  {
    s.(proposals := s.proposals[id := s.proposals[id].(approvals := s.proposals[id].approvals + who)])
  }

  lemma OneApproval(s: State, id: U64, signer: Address)
    requires Inv(s) && id in s.proposals && !s.proposals[id].executed
    requires signer in s.proposals[id].signers && signer !in s.proposals[id].approvals
    ensures var s' := Next(s, Call({signer}, DoApprove(id, signer)));
      Inv(s') && s' == WithApprovals(s, id, [signer])
  {
    StepKeepsInv(s, Call({signer}, DoApprove(id, signer)));
  }

  lemma WithApprovalsTwice(s: State, id: U64, one: Address, rest: seq<Address>)
    requires id in s.proposals
    ensures WithApprovals(WithApprovals(s, id, [one]), id, rest) == WithApprovals(s, id, [one] + rest)
  {
    assert s.proposals[id].approvals + [one] + rest == s.proposals[id].approvals + ([one] + rest);
  }

  lemma {:induction false} ApprovalsAllSucceed(s: State, id: U64, who: seq<Address>)
    requires Inv(s) && id in s.proposals && !s.proposals[id].executed
    requires Distinct(who) && forall a :: a in who ==> a in s.proposals[id].signers && a !in s.proposals[id].approvals
    ensures Run(s, Approvals(id, who)) == WithApprovals(s, id, who)
    decreases |who|
  {
    if who == [] {
      assert s.proposals[id].approvals + who == s.proposals[id].approvals;
    } else {
      var s' := WithApprovals(s, id, [who[0]]);
      OneApproval(s, id, who[0]);
      assert Approvals(id, who)[1..] == Approvals(id, who[1..]);
      ApprovalsAllSucceed(s', id, who[1..]);
      WithApprovalsTwice(s, id, who[0], who[1..]);
      assert [who[0]] + who[1..] == who;
    }
  }

  /** Main result: in every reachable state, after any rotations, an unexecuted proposal becomes
      executable once its remaining snapshot signers approve it, and then does execute. */
  lemma AnyProposalCanPass(calls: seq<Call>, id: U64)
    requires id in Run(EMPTY, calls).proposals && !Run(EMPTY, calls).proposals[id].executed
    ensures
      var s := Run(EMPTY, calls);
      var p := s.proposals[id];
      var s' := Run(s, Approvals(id, Missing(p, |p.signers|)));
      && id in s'.proposals && Ready(s'.proposals[id])
      && (s.nonce < U64_MAX ==> Execute(s', id, p.action, s'.nonce, false).Commit?)
  {
    RunKeepsInv(EMPTY, calls);
    var s := Run(EMPTY, calls);
    var p := s.proposals[id];
    assert SoundProposal(p);
    var who := Missing(p, |p.signers|);
    MissingIsTheRest(p, |p.signers|);
    assert p.signers[..|p.signers|] == p.signers;
    ApprovalsAllSucceed(s, id, who);
    var all := p.approvals + who;
    assert ToSet(all) == ToSet(p.signers);
    DistinctAppend(p.approvals, who);
    DistinctLength(all);
    DistinctLength(p.signers);
  }
}
