/** A run of governance in which neither Cancelled nor Executed is final. */
module GovernanceScenarios {
  import opened Prelude
  import opened GovernanceSpec
  import opened GovernanceProofs

  lemma {:induction false} RunOneMore(s: State, calls: seq<Call>, c: Call)
    ensures Run(s, calls + [c]) == Next(Run(s, calls), c)
    decreases |calls|
  {
    if calls == [] {
      assert [c][1..] == [];
      assert calls + [c] == [c];
      assert Run(Next(s, c), []) == Next(s, c);
    } else {
      assert (calls + [c])[1..] == calls[1..] + [c];
      RunOneMore(Next(s, calls[0]), calls[1..], c);
    }
  }

  /** An electorate of one, in which the proposer is the voter, and the hash is whatever is proposed. */
  datatype Cast = Cast(admin: Address, proposer: Address, hash: Hash, cfg: Config)

  /** Any valid configuration with one vote in all that can be waited out. */
  predicate Fitting(who: Cast) {
    && ValidConfig(who.cfg) && who.cfg.minStake >= 0
    && who.cfg.scheme == OnePersonOneVote && who.cfg.onePersonVoters == 1
    && who.cfg.votingPeriod < U64_MAX
  }

  /** The first time at which voting is over and the delay has passed. */
  function Late(who: Cast): U64
    requires Fitting(who)
  {
    Max(who.cfg.votingPeriod + 1, SatAdd(who.cfg.votingPeriod, who.cfg.executionDelay))
  }

  /** Propose, vote For, and cancel all the same. */
  function Cancellation(who: Cast): seq<Call>
    requires Fitting(who)
  {
    [Call({who.admin}, 0, DoInit(who.admin, who.cfg)),
     Call({who.proposer}, 0, DoCreate(who.proposer, who.hash, who.cfg.minStake)),
     Call({who.proposer}, 0, DoCast(who.proposer, 0, For, 0)),
     Call({who.proposer}, 0, DoCancel(who.proposer, 0))]
  }

  /** Signed by nobody: finalize and execute. */
  function Revival(who: Cast): seq<Call>
    requires Fitting(who)
  {
    [Call({}, Late(who), DoFinalize(0)), Call({}, Late(who), DoExecute(0))]
  }

  /** The one proposal of the run, with its one vote, in the given status. */
  predicate OnlyProposal(who: Cast, s: State, status: Status)
    requires Fitting(who)
  {
    && s.config == Some(who.cfg) && s.mode == Some(GovernanceMode) && s.count == 1
    && s.proposals == map[0 := Proposal(0, who.proposer, who.hash, 0, 0, who.cfg.votingPeriod,
                                        who.cfg.executionDelay, status, 1, 0, 0, 1)]
  }

  lemma AfterVote(who: Cast)
    requires Fitting(who)
    ensures OnlyProposal(who, Run(EMPTY, Cancellation(who)[..3]), Active)
  {
    var calls := Cancellation(who);
    var s1 := Next(EMPTY, calls[0]);
    var s2 := Next(s1, calls[1]);
    assert calls[..1] == [] + [calls[0]] && calls[..2] == calls[..1] + [calls[1]];
    assert calls[..3] == calls[..2] + [calls[2]];
    RunOneMore(EMPTY, [], calls[0]);
    RunOneMore(EMPTY, calls[..1], calls[1]);
    RunOneMore(EMPTY, calls[..2], calls[2]);
  }

  lemma AfterCancellation(who: Cast)
    requires Fitting(who)
    ensures OnlyProposal(who, Run(EMPTY, Cancellation(who)), Cancelled)
  {
    var calls := Cancellation(who);
    AfterVote(who);
    assert calls == calls[..3] + [calls[3]];
    RunOneMore(EMPTY, calls[..3], calls[3]);
  }

  /** Whatever the status, the one vote carries the proposal, and it can be executed. */
  lemma Revives(who: Cast, s: State, status: Status)
    requires Fitting(who) && OnlyProposal(who, s, status)
    ensures OnlyProposal(who, Next(s, Revival(who)[0]), Approved)
    ensures OnlyProposal(who, Next(Next(s, Revival(who)[0]), Revival(who)[1]), Executed)
  {
    var p := s.proposals[0];
    VerdictIsExact(p, who.cfg);
    OneVoteCarries(who, p);
  }

  lemma OneVoteCarries(who: Cast, p: Proposal)
    requires Fitting(who) && p.votesFor == 1 && p.votesAgainst == 0 && p.votesAbstain == 0
    ensures Carried(p, who.cfg)
  {
  }

  /** Whoever takes part and whatever the terms: after its cancellation anyone can finalize the
      proposal to Approved and have it Executed, and then do both again. */
  lemma CancelledAndExecutedRunAgain(who: Cast)
    requires Fitting(who)
    ensures var cancelled, again := Cancellation(who), Revival(who);
      && Chronological(0, cancelled + again + again)
      && OnlyProposal(who, Run(EMPTY, cancelled), Cancelled)
      && OnlyProposal(who, Run(EMPTY, cancelled + again), Executed)
      && OnlyProposal(who, Run(EMPTY, cancelled + again + [again[0]]), Approved)
      && OnlyProposal(who, Run(EMPTY, cancelled + again + again), Executed)
  {
    var cancelled, again := Cancellation(who), Revival(who);
    AfterCancellation(who);
    RunTwoMore(EMPTY, cancelled, again);
    Revives(who, Run(EMPTY, cancelled), Cancelled);
    RunTwoMore(EMPTY, cancelled + again, again);
    Revives(who, Run(EMPTY, cancelled + again), Executed);
  }

  lemma RunTwoMore(s: State, calls: seq<Call>, two: seq<Call>)
    requires |two| == 2
    ensures Run(s, calls + [two[0]]) == Next(Run(s, calls), two[0])
    ensures Run(s, calls + two) == Next(Next(Run(s, calls), two[0]), two[1])
  {
    RunOneMore(s, calls, two[0]);
    RunOneMore(s, calls + [two[0]], two[1]);
    assert calls + two == calls + [two[0]] + [two[1]];
  }
}
