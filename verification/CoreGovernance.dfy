/** Governance inside a core instance: its storage goes through the same states as it would on its own,
    so what holds of every governance run holds there. */
module CoreGovernance {
  import opened Prelude
  import opened CoreSpec
  import opened CoreProofs
  import G = GovernanceSpec
  import GP = GovernanceProofs
  import GS = GovernanceScenarios

  /** The governance calls among the first `k` transactions that went through. */
  function GovernanceCalls(calls: seq<Call>, k: nat): seq<GP.Call>
    requires k <= |calls|
  {
    if k == 0 then []
    else
      var earlier := GovernanceCalls(calls, k - 1);
      var c := calls[k - 1];
      if Committed(calls, k - 1) && c.op.OfGovernance? then earlier + [GP.Call(c.auth, c.now, c.op.g)] else earlier
  }

  /** Only the claimed mode can differ, and only while governance has not claimed one. */
  predicate SameGovernance(g: G.State, own: G.State) {
    && g == own.(mode := g.mode)
    && (own.mode.Some? ==> g.mode == own.mode)
  }

  lemma StepOnBoth(g: G.State, own: G.State, c: GP.Call)
    requires SameGovernance(g, own) && GP.Step(g, c).Commit?
    ensures SameGovernance(GP.Step(g, c).state, GP.Next(own, c))
  {
  }

  /** Calls that are not governance's leave its storage alone, except for claiming a free mode. */
  lemma OthersOnlyClaim(s: State, c: Call)
    requires Step(s, c).Commit? && !c.op.OfGovernance?
    ensures var g := Step(s, c).state.gov;
      g == s.gov.(mode := g.mode) && (s.gov.mode.Some? ==> g.mode == s.gov.mode)
  {
  }

  lemma {:induction false} CoreRunIsGovernanceRun(calls: seq<Call>, k: nat)
    requires k <= |calls|
    ensures SameGovernance(At(calls, k).gov, GP.Run(G.EMPTY, GovernanceCalls(calls, k)))
  {
    if k == 0 {
    } else {
      CoreRunIsGovernanceRun(calls, k - 1);
      var s, c, earlier := At(calls, k - 1), calls[k - 1], GovernanceCalls(calls, k - 1);
      if Committed(calls, k - 1) {
        if c.op.OfGovernance? {
          StepOnBoth(s.gov, GP.Run(G.EMPTY, earlier), GP.Call(c.auth, c.now, c.op.g));
          GS.RunOneMore(G.EMPTY, earlier, GP.Call(c.auth, c.now, c.op.g));
        } else {
          OthersOnlyClaim(s, c);
        }
      }
    }
  }

  /** Ledger time never goes back. */
  predicate Timely(calls: seq<Call>) {
    forall i, j :: 0 <= i < j < |calls| ==> calls[i].now <= calls[j].now
  }

  lemma ChronologicalAppend(calls: seq<GP.Call>, c: GP.Call)
    requires GP.Chronological(0, calls) && GP.EndTime(0, calls) <= c.now
    ensures GP.Chronological(0, calls + [c])
  {
  }

  lemma {:induction false} GovernanceCallsAreTimely(calls: seq<Call>, k: nat, now: U64)
    requires k <= |calls| && Timely(calls) && forall i :: 0 <= i < k ==> calls[i].now <= now
    ensures GP.Chronological(0, GovernanceCalls(calls, k)) && GP.EndTime(0, GovernanceCalls(calls, k)) <= now
  {
    if k == 0 {
    } else {
      var c := calls[k - 1];
      GovernanceCallsAreTimely(calls, k - 1, c.now);
      if Committed(calls, k - 1) && c.op.OfGovernance? {
        ChronologicalAppend(GovernanceCalls(calls, k - 1), GP.Call(c.auth, c.now, c.op.g));
      }
    }
  }

  /** Where there are proposals the two storages are equal altogether. */
  lemma ProposalsMeanSame(calls: seq<Call>, k: nat)
    requires k <= |calls| && Timely(calls) && At(calls, k).gov.proposals != map[]
    ensures At(calls, k).gov == GP.Run(G.EMPTY, GovernanceCalls(calls, k))
    ensures GP.Chronological(0, GovernanceCalls(calls, k))
  {
    CoreRunIsGovernanceRun(calls, k);
    GovernanceCallsAreTimely(calls, k, if k == 0 then 0 else calls[k - 1].now);
    GP.RunKeepsInv(G.EMPTY, 0, GovernanceCalls(calls, k));
  }

  /** Main result: in every reachable state of the core each tally is the sum of the recorded votes,
      and an approved or executed proposal met quorum and approval threshold on them. */
  lemma CoreTalliesAndApprovals(calls: seq<Call>, k: nat, id: U32)
    requires k <= |calls| && Timely(calls) && id in At(calls, k).gov.proposals
    ensures var g := At(calls, k).gov;
      && g.config.Some? && GP.Tallies(g.proposals[id], id, g.votes)
      && (g.proposals[id].status in {G.Approved, G.Executed} ==>
            var f, a := GP.Power(g.votes, id, G.For), GP.Power(g.votes, id, G.Against);
            var b := GP.Power(g.votes, id, G.Abstain);
            && (f + a + b) * G.BASIS >= g.config.value.quorum * G.TotalVotingPower(g.config.value)
            && f * G.BASIS >= g.config.value.approval * (f + a)
            && f >= a && f + a > 0)
  {
    ProposalsMeanSame(calls, k);
    var own := GovernanceCalls(calls, k);
    GP.TalliesAreSums(own, id);
    GP.RunKeepsInv(G.EMPTY, 0, own);
    if At(calls, k).gov.proposals[id].status in {G.Approved, G.Executed} {
      GP.ApprovalIsEarned(own, id);
    }
  }

  /** The governance calls of a longer run are those of the shorter one and later ones. */
  lemma {:induction false} GovernanceCallsGrow(calls: seq<Call>, j: nat, k: nat) returns (later: seq<GP.Call>)
    requires j <= k <= |calls|
    ensures GovernanceCalls(calls, k) == GovernanceCalls(calls, j) + later
    ensures forall i :: 0 <= i < |later| ==> exists n :: j <= n < k && later[i].now == calls[n].now
    decreases k
  {
    if j == k {
      later := [];
    } else {
      later := GovernanceCallsGrow(calls, j, k - 1);
      var c := calls[k - 1];
      if Committed(calls, k - 1) && c.op.OfGovernance? {
        later := later + [GP.Call(c.auth, c.now, c.op.g)];
      }
    }
  }

  lemma {:induction false} RunSplits(s: G.State, first: seq<GP.Call>, later: seq<GP.Call>)
    ensures GP.Run(s, first + later) == GP.Run(GP.Run(s, first), later)
    decreases |later|
  {
    if later == [] {
      assert first + later == first;
    } else {
      var n := |later| - 1;
      RunSplits(s, first, later[..n]);
      GS.RunOneMore(s, first + later[..n], later[n]);
      GS.RunOneMore(GP.Run(s, first), later[..n], later[n]);
      assert first + later == first + later[..n] + [later[n]] && later == later[..n] + [later[n]];
    }
  }

  lemma LaterPart(first: seq<GP.Call>, later: seq<GP.Call>, t: U64)
    requires GP.Chronological(0, first + later) && forall i :: 0 <= i < |later| ==> t <= later[i].now
    ensures GP.Chronological(t, later)
  {
    assert forall i :: 0 <= i < |later| ==> later[i] == (first + later)[|first| + i];
  }

  /** The same for governance on its own, with the two parts of the run joined. */
  lemma OwnVerdictIsStable(first: seq<GP.Call>, later: seq<GP.Call>, id: U32, t: U64, t': U64)
    requires GP.Chronological(0, first + later) && GP.Chronological(0, first) && GP.EndTime(0, first) <= t
    requires id in GP.Run(G.EMPTY, first).proposals && t > GP.Run(G.EMPTY, first).proposals[id].votingEnd
    requires t <= t' && forall i :: 0 <= i < |later| ==> t <= later[i].now <= t'
    ensures var s, s' := GP.Run(G.EMPTY, first), GP.Run(G.EMPTY, first + later);
      id in s'.proposals && GP.Reported(G.Finalize(s', id, t')) == GP.Reported(G.Finalize(s, id, t))
  {
    LaterPart(first, later, t);
    RunSplits(G.EMPTY, first, later);
    GP.VerdictIsStable(first, later, id, t, t');
    GP.RunKeepsInv(G.EMPTY, 0, first);
    GP.LaterKeepsInv(GP.Run(G.EMPTY, first), GP.EndTime(0, first), t);
    GP.BallotsFrozen(GP.Run(G.EMPTY, first), t, later, id);
  }

  lemma LaterTimes(calls: seq<Call>, j: nat, k: nat, later: seq<GP.Call>, t: U64, t': U64)
    requires j <= k <= |calls| && forall i :: j <= i < k ==> t <= calls[i].now <= t'
    requires forall i :: 0 <= i < |later| ==> exists n :: j <= n < k && later[i].now == calls[n].now
    ensures forall i :: 0 <= i < |later| ==> t <= later[i].now <= t'
  {
  }

  lemma SameWithProposals(calls: seq<Call>, k: nat)
    requires k <= |calls| && GP.Run(G.EMPTY, GovernanceCalls(calls, k)).proposals != map[]
    requires Timely(calls)
    ensures At(calls, k).gov == GP.Run(G.EMPTY, GovernanceCalls(calls, k))
  {
    CoreRunIsGovernanceRun(calls, k);
    ProposalsMeanSame(calls, k);
  }

  /** Main result: once voting on a proposal is over, every finalize call on it gives the same verdict
      or error, whatever core transactions come in between. */
  lemma CoreVerdictIsStable(calls: seq<Call>, j: nat, k: nat, id: U32, t: U64, t': U64)
    requires j <= k <= |calls| && Timely(calls) && id in At(calls, j).gov.proposals
    requires t > At(calls, j).gov.proposals[id].votingEnd && t <= t'
    requires forall i :: 0 <= i < j ==> calls[i].now <= t
    requires forall i :: j <= i < k ==> t <= calls[i].now <= t'
    ensures GP.Reported(G.Finalize(At(calls, k).gov, id, t')) == GP.Reported(G.Finalize(At(calls, j).gov, id, t))
  {
    ProposalsMeanSame(calls, j);
    GovernanceCallsAreTimely(calls, j, t);
    var later := GovernanceCallsGrow(calls, j, k);
    GovernanceCallsAreTimely(calls, k, t');
    LaterTimes(calls, j, k, later, t, t');
    OwnVerdictIsStable(GovernanceCalls(calls, j), later, id, t, t');
    SameWithProposals(calls, k);
  }
}
