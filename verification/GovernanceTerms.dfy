/** The terms of governance written out: what a vote weighs and what a quorum is under each scheme, and
    exactly when each call goes through. */
module GovernanceTerms {
  import opened Prelude
  import opened GovernanceSpec
  import opened GovernanceProofs
  import opened GovernanceAuthority

  // ---------------------------------------------------------------------------------------------
  // Quorum and approval, per scheme
  // ---------------------------------------------------------------------------------------------

  /** The two inequalities over for, against and abstain power: a share of the token supply under
      token weighting, of the number of persons otherwise, in hundredths of a percent. */
  predicate Passes(cfg: Config, f: int, a: int, b: int) {
    && (match cfg.scheme
        case TokenWeighted => (f + a + b) * 10000 >= cfg.quorum * cfg.tokenPower
        case OnePersonOneVote => (f + a + b) * 10000 >= cfg.quorum * cfg.onePersonVoters)
    && f + a > 0
    && f * 10000 >= cfg.approval * (f + a)
  }

  lemma CarriedIsPasses(p: Proposal, cfg: Config)
    ensures Carried(p, cfg) <==> Passes(cfg, p.votesFor, p.votesAgainst, p.votesAbstain)
  {
  }

  /** Main result: in every reachable state, finalizing a proposal after its voting end reports Approved
      if and only if its ballots pass, Rejected if they do not, and fails only if ten thousand times
      the turnout does not fit 128 bits. */
  lemma FinalizeByScheme(calls: seq<Call>, id: U32, now: U64)
    requires Chronological(0, calls) && EndTime(0, calls) <= now && id in Run(EMPTY, calls).proposals
    requires now > Run(EMPTY, calls).proposals[id].votingEnd
    ensures var s := Run(EMPTY, calls); var p := s.proposals[id];
      && s.config.Some?
      && Reported(Finalize(s, id, now))
         == if (p.votesFor + p.votesAgainst + p.votesAbstain) * 10000 > I128_MAX then Abort(VoteWeightOverflow)
            else if Passes(s.config.value, p.votesFor, p.votesAgainst, p.votesAbstain) then Commit(Approved)
            else Commit(Rejected)
  {
    RunKeepsInv(EMPTY, 0, calls);
    var s := Run(EMPTY, calls);
    assert Booked(s.proposals[id], id, s.votes, s.config.value, EndTime(0, calls));
    VerdictIsExact(s.proposals[id], s.config.value);
    CarriedIsPasses(s.proposals[id], s.config.value);
  }

  /** Main result: every approved or executed proposal passes on the sums of its recorded votes. */
  lemma ApprovedPasses(calls: seq<Call>, id: U32)
    requires Chronological(0, calls) && id in Run(EMPTY, calls).proposals
    requires Run(EMPTY, calls).proposals[id].status in {Approved, Executed}
    ensures var s := Run(EMPTY, calls);
      && s.config.Some?
      && Passes(s.config.value, Power(s.votes, id, For), Power(s.votes, id, Against), Power(s.votes, id, Abstain))
  {
    RunKeepsInv(EMPTY, 0, calls);
    var s := Run(EMPTY, calls);
    var p := s.proposals[id];
    assert Booked(p, id, s.votes, s.config.value, EndTime(0, calls));
    VerdictIsExact(p, s.config.value);
    CarriedIsPasses(p, s.config.value);
  }

  // ---------------------------------------------------------------------------------------------
  // What a vote weighs
  // ---------------------------------------------------------------------------------------------

  /** Main result: behind every recorded vote there is a signed call in time; the vote weighs the
      voter's balance at that call under token weighting and one otherwise. */
  lemma VoteWeighs(calls: seq<Call>, key: VoteKey) returns (k: nat)
    requires Chronological(0, calls) && key in Run(EMPTY, calls).votes
    ensures k < |calls| && Casts(calls[k], Run(EMPTY, calls).votes[key]) && Run(EMPTY, calls).config.Some?
    ensures key == (calls[k].op.id, calls[k].op.voter)
    ensures Run(EMPTY, calls).votes[key].power
         == match Run(EMPTY, calls).config.value.scheme
            case TokenWeighted => calls[k].op.balance
            case OnePersonOneVote => 1
  {
    RunKeepsInv(EMPTY, 0, []);
    k := VotesAreSigned(EMPTY, 0, calls, key);
  }

  // ---------------------------------------------------------------------------------------------
  // Exactly when the calls go through
  // ---------------------------------------------------------------------------------------------

  /** Main result: governance is initialised exactly by a signing administrator on a free instance, with
      shares of at most all, an approval of at least half, and somebody to vote. */
  lemma InitExact(s: State, auth: set<Address>, admin: Address, cfg: Config)
    ensures var r := Init(s, auth, admin, cfg);
      && (r.Commit? <==>
            && admin in auth && s.mode == None
            && cfg.quorum <= 10000 && 5000 <= cfg.approval <= 10000 && cfg.minStake >= 0
            && (if cfg.scheme == TokenWeighted then cfg.tokenPower > 0 else cfg.onePersonVoters > 0))
      && (r.Commit? ==>
            r.state == s.(admin := Some(admin), config := Some(cfg), count := 0, mode := Some(GovernanceMode)))
  {
  }

  /** Main result: in every reachable state a proposal is created exactly by a signing proposer who holds
      the minimum stake, if one is asked for, and while the clock and the ids last. It opens at once,
      with no votes, for the configured period. */
  lemma CreateExact(calls: seq<Call>, auth: set<Address>, proposer: Address, hash: Hash, now: U64, balance: I128)
    requires Chronological(0, calls)
    ensures var s := Run(EMPTY, calls); var r := Create(s, auth, proposer, hash, now, balance);
      && (r.Commit? <==>
            && proposer in auth && s.config.Some?
            && (s.config.value.minStake == 0 || balance >= s.config.value.minStake)
            && now + s.config.value.votingPeriod <= U64_MAX && s.count < U32_MAX)
      && (r.Commit? ==>
            var cfg, n := s.config.value, s.count;
            var p := Proposal(n, proposer, hash, now, now, now + cfg.votingPeriod, cfg.executionDelay,
                              Active, 0, 0, 0, 0);
            n !in s.proposals && r.state == s.(proposals := s.proposals[n := p], count := n + 1))
  {
    RunKeepsInv(EMPTY, 0, calls);
  }

  /** What casting a vote needs: a voter who signs and has not voted, an active proposal before its end,
      a positive weight, and room in its tally and in the count. */
  predicate MayCast(s: State, auth: set<Address>, voter: Address, id: U32, kind: VoteType, now: U64, balance: I128) {
    && voter in auth && id in s.proposals && (id, voter) !in s.votes && s.config.Some?
    && var p, weight := s.proposals[id], if s.config.value.scheme == TokenWeighted then balance else 1;
    && p.status == Active && now <= p.votingEnd && weight > 0 && p.totalVotes < U32_MAX
    && (kind == For ==> p.votesFor + weight <= I128_MAX)
    && (kind == Against ==> p.votesAgainst + weight <= I128_MAX)
    && (kind == Abstain ==> p.votesAbstain + weight <= I128_MAX)
  }

  lemma CastWithTallies(s: State, auth: set<Address>, voter: Address, id: U32, kind: VoteType, now: U64, balance: I128)
    requires id in s.proposals ==> Nonnegative(s.proposals[id])
    ensures Cast(s, auth, voter, id, kind, now, balance).Commit? <==> MayCast(s, auth, voter, id, kind, now, balance)
  {
  }

  /** Main result: in every reachable state a vote is cast exactly under these conditions. */
  lemma CastExact(
    calls: seq<Call>, auth: set<Address>, voter: Address, id: U32, kind: VoteType, now: U64, balance: I128)
    requires Chronological(0, calls)
    ensures var s := Run(EMPTY, calls);
      Cast(s, auth, voter, id, kind, now, balance).Commit? <==> MayCast(s, auth, voter, id, kind, now, balance)
  {
    RunKeepsInv(EMPTY, 0, calls);
    var s := Run(EMPTY, calls);
    if id in s.proposals {
      assert Booked(s.proposals[id], id, s.votes, s.config.value, EndTime(0, calls));
    }
    CastWithTallies(s, auth, voter, id, kind, now, balance);
  }

  /** Main result: in every reachable state a proposal is executed exactly if it is approved and its
      delay is over, cancelled exactly by its signing proposer while active, expired exactly if it is
      active after its end; nothing but the status changes. */
  lemma StatusCallsExact(calls: seq<Call>, auth: set<Address>, who: Address, id: U32, now: U64)
    requires Chronological(0, calls)
    ensures var s := Run(EMPTY, calls); var r := Execute(s, id, now);
      && (r.Commit? <==>
            && id in s.proposals && s.proposals[id].status == Approved
            && now >= Min(U64_MAX, s.proposals[id].votingEnd + s.proposals[id].executionDelay))
      && (r.Commit? ==> r.state == s.(proposals := s.proposals[id := s.proposals[id].(status := Executed)]))
    ensures var s := Run(EMPTY, calls); var r := Cancel(s, auth, who, id);
      && (r.Commit? <==>
            && who in auth && id in s.proposals
            && s.proposals[id].status == Active && s.proposals[id].proposer == who)
      && (r.Commit? ==> r.state == s.(proposals := s.proposals[id := s.proposals[id].(status := Cancelled)]))
    ensures var s := Run(EMPTY, calls); var r := Sweep(s, id, now);
      && (r.Commit? <==> id in s.proposals && s.proposals[id].status == Active && now > s.proposals[id].votingEnd)
      && (r.Commit? ==> r.state == s.(proposals := s.proposals[id := s.proposals[id].(status := Expired)]))
  {
    RunKeepsInv(EMPTY, 0, calls);
  }

  // ---------------------------------------------------------------------------------------------
  // Reasons
  // ---------------------------------------------------------------------------------------------

  /** The proposal a call is about, if there is one. */
  function About(s: State, c: Call): Option<Proposal> {
    var id := match c.op
      case DoCast(_, id, _, _) => Some(id)
      case DoFinalize(id) => Some(id)
      case DoExecute(id) => Some(id)
      case DoCancel(_, id) => Some(id)
      case DoSweep(id) => Some(id)
      case _ => None;
    if id.Some? && id.value in s.proposals then Some(s.proposals[id.value]) else None
  }

  /** Who has to sign. */
  function Signer(c: Call): Option<Address> {
    match c.op
    case DoInit(admin, _) => Some(admin)
    case DoCreate(proposer, _, _) => Some(proposer)
    case DoCast(voter, _, _, _) => Some(voter)
    case DoCancel(caller, _) => Some(caller)
    case _ => None
  }

  /** What each reason means. */
  predicate True(s: State, c: Call, e: Fault) {
    var p := About(s, c);
    match e
    case NotSigned => Signer(c).Some? && Signer(c).value !in c.auth
    case AlreadyInitialized => c.op.DoInit? && s.mode.Some?
    case InvalidThreshold => c.op.DoInit? && (c.op.cfg.quorum > 10000 || c.op.cfg.approval > 10000)
    case ThresholdTooLow => c.op.DoInit? && c.op.cfg.approval < 5000
    case InsufficientStake =>
      || (c.op.DoInit? && c.op.cfg.minStake < 0)
      || (c.op.DoCreate? && s.config.Some? && c.op.balance < s.config.value.minStake)
    case InvalidTotalVotingPower =>
      && c.op.DoInit?
      && (if c.op.cfg.scheme == TokenWeighted then c.op.cfg.tokenPower <= 0 else c.op.cfg.onePersonVoters == 0)
    case NotInitialized => s.config.None?
    case ArithmeticPanic => c.op.DoCreate? || c.op.DoCast?
    case ProposalsNotFound => s.proposals == map[]
    case ProposalNotFound => p.None?
    case ProposalNotActive => p.Some? && p.value.status != Active
    case VotingEnded => c.op.DoCast? && p.Some? && c.now > p.value.votingEnd
    case VotingStillActive => p.Some? && c.now <= p.value.votingEnd
    case AlreadyVoted => c.op.DoCast? && (c.op.id, c.op.voter) in s.votes
    case ZeroVotingPower => c.op.DoCast? && c.op.balance <= 0
    case ProposalNotApproved => c.op.DoExecute? && p.Some? && p.value.status != Approved
    case ExecutionDelayNotMet => c.op.DoExecute? && p.Some? && c.now < p.value.votingEnd + p.value.executionDelay
    case Unauthorized => c.op.DoCancel? && p.Some? && p.value.proposer != c.op.caller
    case VoteWeightOverflow => c.op.DoCast? || c.op.DoFinalize?
  }

  lemma SetupTells(s: State, c: Call)
    requires (c.op.DoInit? || c.op.DoCreate?) && Step(s, c).Abort?
    ensures True(s, c, Step(s, c).error)
  {
  }

  lemma CastTells(s: State, c: Call)
    requires c.op.DoCast? && Step(s, c).Abort?
    ensures True(s, c, Step(s, c).error)
  {
  }

  lemma FinalizeTells(s: State, c: Call, now: U64)
    requires Inv(s, now) && c.op.DoFinalize? && Step(s, c).Abort?
    ensures True(s, c, Step(s, c).error)
  {
    if c.op.id in s.proposals {
      assert Booked(s.proposals[c.op.id], c.op.id, s.votes, s.config.value, now);
      VerdictIsExact(s.proposals[c.op.id], s.config.value);
    }
  }

  lemma StatusCallsTell(s: State, c: Call)
    requires (c.op.DoExecute? || c.op.DoCancel? || c.op.DoSweep?) && Step(s, c).Abort?
    ensures True(s, c, Step(s, c).error)
  {
  }

  /** Main result: in every reachable state the reason a failing call gives is true of it. */
  lemma ReasonsAreTrue(calls: seq<Call>, c: Call)
    requires Chronological(0, calls) && Step(Run(EMPTY, calls), c).Abort?
    ensures True(Run(EMPTY, calls), c, Step(Run(EMPTY, calls), c).error)
  {
    RunKeepsInv(EMPTY, 0, calls);
    var s := Run(EMPTY, calls);
    match c.op
    case DoInit(_, _) => SetupTells(s, c);
    case DoCreate(_, _, _) => SetupTells(s, c);
    case DoCast(_, _, _, _) => CastTells(s, c);
    case DoFinalize(_) => FinalizeTells(s, c, EndTime(0, calls));
    case _ => StatusCallsTell(s, c);
  }
}
