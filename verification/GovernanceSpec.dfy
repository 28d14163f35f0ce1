/** What every governance entry point does to its stored state (governance.rs). */
module GovernanceSpec {
  import opened Prelude

  datatype Status = Pending | Active | Approved | Rejected | Executed | Expired | Cancelled

  datatype VoteType = For | Against | Abstain

  datatype Scheme = OnePersonOneVote | TokenWeighted

  datatype Config = Config(
    votingPeriod: U64,
    executionDelay: U64,
    quorum: U32,
    approval: U32,
    minStake: I128,
    scheme: Scheme,
    onePersonVoters: U32,
    tokenPower: I128)

  datatype Proposal = Proposal(
    id: U32,
    proposer: Address,
    hash: Hash,
    createdAt: U64,
    votingStart: U64,
    votingEnd: U64,
    executionDelay: U64,
    status: Status,
    votesFor: I128,
    votesAgainst: I128,
    votesAbstain: I128,
    totalVotes: U32)

  datatype Vote = Vote(voter: Address, proposalId: U32, kind: VoteType, power: I128, timestamp: U64)

  type VoteKey = (U32, Address)

  /** `mode` is the key of the instance storage that all three initialisers share. */
  datatype State = State(
    mode: Option<UpgradeMode>,
    admin: Option<Address>,
    config: Option<Config>,
    proposals: map<U32, Proposal>,
    count: U32,
    votes: map<VoteKey, Vote>)

  datatype Fault =
    | NotInitialized | InvalidThreshold | ThresholdTooLow | InsufficientStake
    | ProposalsNotFound | ProposalNotFound | ProposalNotActive | VotingEnded | VotingStillActive
    | AlreadyVoted | ProposalNotApproved | ExecutionDelayNotMet | ZeroVotingPower | InvalidTotalVotingPower
    | Unauthorized | VoteWeightOverflow | AlreadyInitialized
    | NotSigned | ArithmeticPanic

  const EMPTY := State(None, None, None, map[], 0, map[])

  const BASIS: int := 10000

  function TotalVotingPower(cfg: Config): I128 {
    match cfg.scheme
    case OnePersonOneVote => cfg.onePersonVoters
    case TokenWeighted => cfg.tokenPower
  }

  function VotingPower(cfg: Config, balance: I128): I128 {
    match cfg.scheme
    case OnePersonOneVote => 1
    case TokenWeighted => balance
  }

  function Init(s: State, auth: set<Address>, admin: Address, cfg: Config): Outcome<State, Fault> {
    if admin !in auth then Abort(NotSigned)
    else if s.mode.Some? then Abort(AlreadyInitialized)
    else if cfg.quorum > 10000 || cfg.approval > 10000 then Abort(InvalidThreshold)
    else if cfg.approval < 5000 then Abort(ThresholdTooLow)
    else if cfg.minStake < 0 then Abort(InsufficientStake)
    else if TotalVotingPower(cfg) <= 0 then Abort(InvalidTotalVotingPower)
    else Commit(s.(admin := Some(admin), config := Some(cfg), count := 0, mode := Some(GovernanceMode)))
  }

  /** `balance` is the proposer's governance-token balance at the time of the call. */
  function Create(s: State, auth: set<Address>, proposer: Address, hash: Hash, now: U64, balance: I128)
    : Outcome<State, Fault>
  {
    if proposer !in auth then Abort(NotSigned)
    else if s.config.None? then Abort(NotInitialized)
    else
      var cfg := s.config.value;
      if cfg.minStake != 0 && balance < cfg.minStake then Abort(InsufficientStake)
      else if now + cfg.votingPeriod > U64_MAX || s.count == U32_MAX then Abort(ArithmeticPanic)
      else
        var p := Proposal(s.count, proposer, hash, now, now, now + cfg.votingPeriod, cfg.executionDelay,
            Active, 0, 0, 0, 0);
        Commit(s.(proposals := s.proposals[s.count := p], count := s.count + 1))
  }

  function Find(s: State, id: U32): Outcome<Proposal, Fault> {
    if s.proposals == map[] then Abort(ProposalsNotFound)
    else if id !in s.proposals then Abort(ProposalNotFound)
    else Commit(s.proposals[id])
  }

  /** One more vote on the tally of its kind, with `i128::checked_add`. */
  function Tallied(p: Proposal, kind: VoteType, power: I128): Outcome<Proposal, Fault> {
    match kind
    case For =>
      if FitsI128(p.votesFor + power) then Commit(p.(votesFor := p.votesFor + power)) else Abort(VoteWeightOverflow)
    case Against =>
      if FitsI128(p.votesAgainst + power) then Commit(p.(votesAgainst := p.votesAgainst + power))
          else Abort(VoteWeightOverflow)
    case Abstain =>
      if FitsI128(p.votesAbstain + power) then Commit(p.(votesAbstain := p.votesAbstain + power))
          else Abort(VoteWeightOverflow)
  }

  /** `balance` is the voter's live governance-token balance, whatever the token says it is. */
  function Cast(s: State, auth: set<Address>, voter: Address, id: U32, kind: VoteType, now: U64, balance: I128)
    : Outcome<State, Fault>
  {
    if voter !in auth then Abort(NotSigned)
    else
      match Find(s, id)
      case Abort(e) => Abort(e)
      case Commit(p) =>
        if p.status != Active then Abort(ProposalNotActive)
        else if now > p.votingEnd then Abort(VotingEnded)
        else if (id, voter) in s.votes then Abort(AlreadyVoted)
        else if s.config.None? then Abort(NotInitialized)
        else
          var power := VotingPower(s.config.value, balance);
          if power <= 0 then Abort(ZeroVotingPower)
          else
            match Tallied(p, kind, power)
            case Abort(e) => Abort(e)
            case Commit(t) =>
              if t.totalVotes == U32_MAX then Abort(ArithmeticPanic)
              else
                Commit(s.(proposals := s.proposals[id := t.(totalVotes := t.totalVotes + 1)],
                          votes := s.votes[(id, voter) := Vote(voter, id, kind, power, now)]))
  }

  function Abs(x: int): nat { if x < 0 then -x else x }

  /** Rust's integer division, which truncates toward zero. */
  function TruncDiv(a: int, b: int): int
    requires b != 0
  {
    if (a < 0) == (b < 0) then Abs(a) / Abs(b) else -(Abs(a) / Abs(b))
  }

  /** What the ballots of a proposal decide under a configuration. */
  function Verdict(p: Proposal, cfg: Config): Outcome<Status, Fault> {
    var cast := p.votesFor + p.votesAgainst;
    if !FitsI128(cast) || !FitsI128(cast + p.votesAbstain) then Abort(VoteWeightOverflow)
    else if TotalVotingPower(cfg) <= 0 then Abort(InvalidTotalVotingPower)
    else if !FitsI128((cast + p.votesAbstain) * BASIS) then Abort(VoteWeightOverflow)
    else if TruncDiv((cast + p.votesAbstain) * BASIS, TotalVotingPower(cfg)) < cfg.quorum then Commit(Rejected)
    else if cast == 0 then Commit(Rejected)
    else if !FitsI128(p.votesFor * BASIS) then Abort(VoteWeightOverflow)
    else if TruncDiv(p.votesFor * BASIS, cast) >= cfg.approval then Commit(Approved)
    else Commit(Rejected)
  }

  function WithStatus(s: State, id: U32, status: Status): State
    requires id in s.proposals
  {
    s.(proposals := s.proposals[id := s.proposals[id].(status := status)])
  }

  /** Finalizing looks at no status: it recomputes the verdict for any proposal past its voting end. */
  function Finalize(s: State, id: U32, now: U64): Outcome<(State, Status), Fault> {
    match Find(s, id)
    case Abort(e) => Abort(e)
    case Commit(p) =>
      if s.config.None? then Abort(NotInitialized)
      else if now <= p.votingEnd then Abort(VotingStillActive)
      else
        match Verdict(p, s.config.value)
        case Abort(e) => Abort(e)
        case Commit(status) => Commit((WithStatus(s, id, status), status))
  }

  function ExecutableAt(p: Proposal): U64 {
    SatAdd(p.votingEnd, p.executionDelay)
  }

  function Execute(s: State, id: U32, now: U64): Outcome<State, Fault> {
    match Find(s, id)
    case Abort(e) => Abort(e)
    case Commit(p) =>
      if p.status != Approved then Abort(ProposalNotApproved)
      else if now < ExecutableAt(p) then Abort(ExecutionDelayNotMet)
      else Commit(WithStatus(s, id, Executed))
  }

  function Cancel(s: State, auth: set<Address>, caller: Address, id: U32): Outcome<State, Fault> {
    if caller !in auth then Abort(NotSigned)
    else
      match Find(s, id)
      case Abort(e) => Abort(e)
      case Commit(p) =>
        if p.status != Active then Abort(ProposalNotActive)
        else if caller != p.proposer then Abort(Unauthorized)
        else Commit(WithStatus(s, id, Cancelled))
  }

  function Sweep(s: State, id: U32, now: U64): Outcome<State, Fault> {
    match Find(s, id)
    case Abort(e) => Abort(e)
    case Commit(p) =>
      if p.status != Active then Abort(ProposalNotActive)
      else if now <= p.votingEnd then Abort(VotingStillActive)
      else Commit(WithStatus(s, id, Expired))
  }

  /** Proposal `id` counts as an approval of `hash` at time `now`. */
  predicate Approves(s: State, id: U32, hash: Hash, now: U64) {
    && id in s.proposals
    && s.proposals[id].hash == hash
    && s.proposals[id].status == Executed
    && now >= ExecutableAt(s.proposals[id])
  }
}
