/** Tallies, verdicts and approvals over every run of governance. */
module GovernanceProofs {
  import opened Prelude
  import opened GovernanceSpec

  datatype Op =
    | DoInit(admin: Address, cfg: Config)
    | DoCreate(proposer: Address, hash: Hash, balance: I128)
    | DoCast(voter: Address, id: U32, kind: VoteType, balance: I128)
    | DoFinalize(id: U32)
    | DoExecute(id: U32)
    | DoCancel(caller: Address, id: U32)
    | DoSweep(id: U32)

  datatype Call = Call(auth: set<Address>, now: U64, op: Op)

  function Step(s: State, c: Call): Outcome<State, Fault> {
    match c.op
    case DoInit(admin, cfg) => Init(s, c.auth, admin, cfg)
    case DoCreate(proposer, hash, balance) => Create(s, c.auth, proposer, hash, c.now, balance)
    case DoCast(voter, id, kind, balance) => Cast(s, c.auth, voter, id, kind, c.now, balance)
    case DoFinalize(id) => (match Finalize(s, id, c.now) case Commit(r) => Commit(r.0) case Abort(e) => Abort(e))
    case DoExecute(id) => Execute(s, id, c.now)
    case DoCancel(caller, id) => Cancel(s, c.auth, caller, id)
    case DoSweep(id) => Sweep(s, id, c.now)
  }

  function Next(s: State, c: Call): State {
    match Step(s, c)
    case Commit(s') => s'
    case Abort(_) => s
  }

  function Run(s: State, calls: seq<Call>): State
    decreases |calls|
  {
    if calls == [] then s else Run(Next(s, calls[0]), calls[1..])
  }

  /** Ledger time starts at `from` and never goes back. */
  predicate Chronological(from: U64, calls: seq<Call>) {
    && (forall i :: 0 <= i < |calls| ==> from <= calls[i].now)
    && forall i, j :: 0 <= i < j < |calls| ==> calls[i].now <= calls[j].now
  }

  function EndTime(from: U64, calls: seq<Call>): U64 {
    if calls == [] then from else calls[|calls| - 1].now
  }

  // ---------------------------------------------------------------------------------------------
  // The verdict, exactly
  // ---------------------------------------------------------------------------------------------

  predicate ValidConfig(cfg: Config) {
    cfg.quorum <= 10000 && 5000 <= cfg.approval <= 10000 && TotalVotingPower(cfg) > 0
  }

  predicate Nonnegative(p: Proposal) {
    p.votesFor >= 0 && p.votesAgainst >= 0 && p.votesAbstain >= 0
  }

  /** Flooring does not change a test against an integer. */
  lemma FloorTest(a: int, b: int, t: int)
    requires a >= 0 && b > 0
    ensures TruncDiv(a, b) >= t <==> a >= t * b
  {
    var q := a / b;
    assert a == b * q + a % b;
    if q >= t {
      assert b * q >= b * t;
    } else {
      assert b * (q + 1) <= b * t;
    }
  }

  /** The two inequalities of an approval, multiplied out and free of rounding. */
  predicate Carried(p: Proposal, cfg: Config) {
    && (p.votesFor + p.votesAgainst + p.votesAbstain) * BASIS >= cfg.quorum * TotalVotingPower(cfg)
    && p.votesFor + p.votesAgainst > 0
    && p.votesFor * BASIS >= cfg.approval * (p.votesFor + p.votesAgainst)
  }

  /** Main result: the only error is that ten thousand times the turnout does not fit in 128 bits
      (nothing computed after that can overflow); otherwise the floor-divided tests decide exactly
      the multiplied-out inequalities. */
  lemma VerdictIsExact(p: Proposal, cfg: Config)
    requires ValidConfig(cfg) && Nonnegative(p)
    ensures Verdict(p, cfg)
         == if (p.votesFor + p.votesAgainst + p.votesAbstain) * BASIS > I128_MAX then Abort(VoteWeightOverflow)
            else Commit(if Carried(p, cfg) then Approved else Rejected)
  {
    var cast := p.votesFor + p.votesAgainst;
    FloorTest((cast + p.votesAbstain) * BASIS, TotalVotingPower(cfg), cfg.quorum);
    if cast > 0 {
      FloorTest(p.votesFor * BASIS, cast, cfg.approval);
    }
  }

  lemma CarriedMeansMajority(p: Proposal, cfg: Config)
    requires ValidConfig(cfg) && Nonnegative(p) && Carried(p, cfg)
    ensures p.votesFor >= p.votesAgainst
  {
    HalfOrMore(cfg.approval, p.votesFor, p.votesAgainst);
  }

  lemma HalfOrMore(share: nat, f: nat, a: nat)
    requires share >= 5000 && f * BASIS >= share * (f + a)
    ensures f >= a
  {
    assert share * (f + a) >= 5000 * (f + a);
  }

  /** Main result: more For power never turns an approval into a rejection; at worst the turnout
      becomes too large to compute with. */
  lemma ForPowerIsMonotone(p: Proposal, cfg: Config, extra: nat)
    requires ValidConfig(cfg) && Nonnegative(p) && FitsI128(p.votesFor + extra)
    requires Verdict(p, cfg) == Commit(Approved)
    ensures Verdict(p.(votesFor := p.votesFor + extra), cfg) in {Commit(Approved), Abort(VoteWeightOverflow)}
  {
    VerdictIsExact(p, cfg);
    VerdictIsExact(p.(votesFor := p.votesFor + extra), cfg);
    ShareGrows(cfg.approval, p.votesFor, p.votesAgainst, extra);
  }

  lemma ShareGrows(share: nat, f: nat, a: nat, extra: nat)
    requires share <= BASIS && f * BASIS >= share * (f + a)
    ensures (f + extra) * BASIS >= share * (f + extra + a)
  {
    assert share * (f + extra + a) == share * (f + a) + share * extra;
    assert share * extra <= BASIS * extra;
  }

  // ---------------------------------------------------------------------------------------------
  // Tallies are sums over the recorded votes
  // ---------------------------------------------------------------------------------------------

  function Weight(v: Vote, id: U32, kind: VoteType): int {
    if v.proposalId == id && v.kind == kind then v.power else 0
  }

  /** The recorded power of one kind of vote on one proposal. */
  ghost function Power(votes: map<VoteKey, Vote>, id: U32, kind: VoteType): int
    decreases |votes|
  {
    if votes == map[] then 0
    else
      var k :| k in votes;
      Weight(votes[k], id, kind) + Power(votes - {k}, id, kind)
  }

  ghost function Voters(votes: map<VoteKey, Vote>, id: U32): set<VoteKey> {
    set k | k in votes && votes[k].proposalId == id
  }

  /** The sum does not depend on the order in which the votes are taken. */
  lemma {:induction false} PowerSplitsAnywhere(votes: map<VoteKey, Vote>, id: U32, kind: VoteType, y: VoteKey)
    requires y in votes
    ensures Power(votes, id, kind) == Weight(votes[y], id, kind) + Power(votes - {y}, id, kind)
    decreases |votes|
  {
    var x :| x in votes && Power(votes, id, kind) == Weight(votes[x], id, kind) + Power(votes - {x}, id, kind);
    if x == y {
    } else {
      PowerSplitsAnywhere(votes - {x}, id, kind, y);
      PowerSplitsAnywhere(votes - {y}, id, kind, x);
      assert votes - {x} - {y} == votes - {y} - {x};
    }
  }

  lemma PowerAfterVote(votes: map<VoteKey, Vote>, key: VoteKey, v: Vote, id: U32, kind: VoteType)
    requires key !in votes
    ensures Power(votes[key := v], id, kind) == Power(votes, id, kind) + Weight(v, id, kind)
  {
    PowerSplitsAnywhere(votes[key := v], id, kind, key);
    assert votes[key := v] - {key} == votes;
  }

  lemma VotersAfterVote(votes: map<VoteKey, Vote>, key: VoteKey, v: Vote, id: U32)
    requires key !in votes
    ensures |Voters(votes[key := v], id)| == |Voters(votes, id)| + if v.proposalId == id then 1 else 0
  {
    if v.proposalId == id {
      assert Voters(votes[key := v], id) == Voters(votes, id) + {key};
    } else {
      assert Voters(votes[key := v], id) == Voters(votes, id);
    }
  }

  lemma {:induction false} PowerOfNone(votes: map<VoteKey, Vote>, id: U32, kind: VoteType)
    requires forall k :: k in votes ==> votes[k].proposalId != id
    ensures Power(votes, id, kind) == 0
    decreases |votes|
  {
    if votes == map[] {
    } else {
      var k :| k in votes;
      PowerSplitsAnywhere(votes, id, kind, k);
      PowerOfNone(votes - {k}, id, kind);
    }
  }

  ghost predicate Tallies(p: Proposal, id: U32, votes: map<VoteKey, Vote>) {
    && p.votesFor == Power(votes, id, For)
    && p.votesAgainst == Power(votes, id, Against)
    && p.votesAbstain == Power(votes, id, Abstain)
    && p.totalVotes == |Voters(votes, id)|
    && Nonnegative(p)
  }

  // ---------------------------------------------------------------------------------------------
  // The invariant of every run
  // ---------------------------------------------------------------------------------------------

  /** What a status says about the ballots and the clock. */
  predicate EarnedStatus(p: Proposal, cfg: Config, now: U64) {
    && (p.status in {Approved, Executed} ==> Verdict(p, cfg) == Commit(Approved))
    && (p.status == Rejected ==> Verdict(p, cfg) == Commit(Rejected))
    && (p.status in {Approved, Rejected, Executed, Expired} ==> now > p.votingEnd)
    && (p.status == Executed ==> now >= ExecutableAt(p))
  }

  ghost predicate Keyed(s: State) {
    && (s.config.Some? ==> s.mode.Some? && ValidConfig(s.config.value))
    && (s.config.None? ==> s.proposals == map[])
    && (s.proposals == map[] ==> s.votes == map[])
    && (forall id :: id in s.proposals <==> 0 <= id < s.count)
    && (forall k :: k in s.votes ==> k.0 in s.proposals && s.votes[k].proposalId == k.0 && s.votes[k].voter == k.1)
  }

  ghost predicate Booked(p: Proposal, id: U32, votes: map<VoteKey, Vote>, cfg: Config, now: U64) {
    p.id == id && Tallies(p, id, votes) && EarnedStatus(p, cfg, now)
  }

  ghost predicate Inv(s: State, now: U64) {
    && Keyed(s)
    && forall id :: id in s.proposals ==> Booked(s.proposals[id], id, s.votes, s.config.value, now)
  }

  /** A proposal nobody has voted on is booked. */
  lemma UnvotedIsBooked(p: Proposal, id: U32, votes: map<VoteKey, Vote>, cfg: Config, now: U64)
    requires p.id == id && p.status == Active && p.totalVotes == 0
    requires p.votesFor == 0 && p.votesAgainst == 0 && p.votesAbstain == 0
    requires forall k :: k in votes ==> votes[k].proposalId != id
    ensures Booked(p, id, votes, cfg, now)
  {
    PowerOfNone(votes, id, For);
    PowerOfNone(votes, id, Against);
    PowerOfNone(votes, id, Abstain);
    assert Voters(votes, id) == {};
  }

  lemma CreateKeepsInv(s: State, auth: set<Address>, proposer: Address, hash: Hash, now: U64, balance: I128)
    requires Inv(s, now) && Create(s, auth, proposer, hash, now, balance).Commit?
    ensures Inv(Create(s, auth, proposer, hash, now, balance).state, now)
  {
    var s' := Create(s, auth, proposer, hash, now, balance).state;
    UnvotedIsBooked(s'.proposals[s.count], s.count, s.votes, s.config.value, now);
    forall id | id in s'.proposals
      ensures Booked(s'.proposals[id], id, s'.votes, s.config.value, now)
    {
      if id != s.count {
        assert Booked(s.proposals[id], id, s.votes, s.config.value, now);
      }
    }
  }

  /** A new vote moves the sums of its own proposal and of no other. */
  lemma TalliesAfterVote(p: Proposal, p': Proposal, id: U32, votes: map<VoteKey, Vote>, key: VoteKey, v: Vote)
    requires key !in votes && v.power > 0 && Tallies(p, id, votes)
    requires if v.proposalId == id
             then Tallied(p, v.kind, v.power).Commit? && p.totalVotes < U32_MAX
                  && p' == Tallied(p, v.kind, v.power).state.(totalVotes := p.totalVotes + 1)
             else p' == p
    ensures Tallies(p', id, votes[key := v])
  {
    PowerAfterVote(votes, key, v, id, For);
    PowerAfterVote(votes, key, v, id, Against);
    PowerAfterVote(votes, key, v, id, Abstain);
    VotersAfterVote(votes, key, v, id);
  }

  lemma VoteKeepsKeyed(s: State, id: U32, voter: Address, v: Vote, p': Proposal)
    requires Keyed(s) && id in s.proposals && v.proposalId == id && v.voter == voter
    ensures Keyed(s.(proposals := s.proposals[id := p'], votes := s.votes[(id, voter) := v]))
  {
    var s' := s.(proposals := s.proposals[id := p'], votes := s.votes[(id, voter) := v]);
    assert id in s'.proposals && s'.proposals != map[];
    assert s'.proposals.Keys == s.proposals.Keys;
    forall key | key in s'.votes
      ensures key.0 in s'.proposals && s'.votes[key].proposalId == key.0 && s'.votes[key].voter == key.1
    {
      if key != (id, voter) {
        assert key in s.votes && s'.votes[key] == s.votes[key];
      }
    }
  }

  /** Recording a vote and moving its tally, seen as a change of two maps. */
  lemma VoteKeepsInv(s: State, id: U32, voter: Address, v: Vote, p': Proposal, now: U64)
    requires Inv(s, now) && id in s.proposals && (id, voter) !in s.votes
    requires v.power > 0 && v.proposalId == id && v.voter == voter
    requires s.proposals[id].status == Active && s.proposals[id].totalVotes < U32_MAX
    requires Tallied(s.proposals[id], v.kind, v.power).Commit?
    requires p' == Tallied(s.proposals[id], v.kind, v.power).state.(totalVotes := s.proposals[id].totalVotes + 1)
    ensures Inv(s.(proposals := s.proposals[id := p'], votes := s.votes[(id, voter) := v]), now)
  {
    var s' := s.(proposals := s.proposals[id := p'], votes := s.votes[(id, voter) := v]);
    VoteKeepsKeyed(s, id, voter, v, p');
    forall k | k in s'.proposals
      ensures Booked(s'.proposals[k], k, s'.votes, s.config.value, now)
    {
      assert Booked(s.proposals[k], k, s.votes, s.config.value, now);
      BookedAfterVote(s.proposals[k], s'.proposals[k], k, s.votes, (id, voter), v, s.config.value, now);
    }
  }

  lemma BookedAfterVote(p: Proposal, p': Proposal, id: U32, votes: map<VoteKey, Vote>, key: VoteKey, v: Vote,
      cfg: Config, now: U64)
    requires key !in votes && v.power > 0 && Booked(p, id, votes, cfg, now)
    requires if v.proposalId == id
             then p.status == Active && Tallied(p, v.kind, v.power).Commit? && p.totalVotes < U32_MAX
                  && p' == Tallied(p, v.kind, v.power).state.(totalVotes := p.totalVotes + 1)
             else p' == p
    ensures Booked(p', id, votes[key := v], cfg, now)
  {
    TalliesAfterVote(p, p', id, votes, key, v);
  }

  lemma CastKeepsInv(s: State, auth: set<Address>, voter: Address, id: U32, kind: VoteType, now: U64, balance: I128)
    requires Inv(s, now) && Cast(s, auth, voter, id, kind, now, balance).Commit?
    ensures Inv(Cast(s, auth, voter, id, kind, now, balance).state, now)
  {
    var s' := Cast(s, auth, voter, id, kind, now, balance).state;
    VoteKeepsInv(s, id, voter, s'.votes[(id, voter)], s'.proposals[id], now);
  }

  lemma StatusKeepsInv(s: State, id: U32, status: Status, now: U64)
    requires Inv(s, now) && id in s.proposals
    requires EarnedStatus(s.proposals[id].(status := status), s.config.value, now)
    ensures Inv(WithStatus(s, id, status), now)
  {
  }

  lemma LaterKeepsInv(s: State, now: U64, later: U64)
    requires Inv(s, now) && now <= later
    ensures Inv(s, later)
  {
  }

  lemma VerdictIsEarned(p: Proposal, cfg: Config, now: U64)
    requires now > p.votingEnd && Verdict(p, cfg).Commit?
    ensures EarnedStatus(p.(status := Verdict(p, cfg).state), cfg, now)
  {
    assert Verdict(p.(status := Verdict(p, cfg).state), cfg) == Verdict(p, cfg);
  }

  lemma ExecutedIsEarned(p: Proposal, cfg: Config, now: U64)
    requires EarnedStatus(p, cfg, now) && p.status == Approved && now >= ExecutableAt(p)
    ensures EarnedStatus(p.(status := Executed), cfg, now)
  {
    assert Verdict(p.(status := Executed), cfg) == Verdict(p, cfg);
  }

  lemma FinalizeKeepsInv(s: State, id: U32, now: U64)
    requires Inv(s, now) && Finalize(s, id, now).Commit?
    ensures Inv(Finalize(s, id, now).state.0, now)
  {
    var status := Finalize(s, id, now).state.1;
    VerdictIsEarned(s.proposals[id], s.config.value, now);
    StatusKeepsInv(s, id, status, now);
  }

  lemma ExecuteKeepsInv(s: State, id: U32, now: U64)
    requires Inv(s, now) && Execute(s, id, now).Commit?
    ensures Inv(Execute(s, id, now).state, now)
  {
    assert Booked(s.proposals[id], id, s.votes, s.config.value, now);
    ExecutedIsEarned(s.proposals[id], s.config.value, now);
    StatusKeepsInv(s, id, Executed, now);
  }

  lemma WithdrawKeepsInv(s: State, auth: set<Address>, caller: Address, id: U32, now: U64)
    requires Inv(s, now)
    ensures Cancel(s, auth, caller, id).Commit? ==> Inv(Cancel(s, auth, caller, id).state, now)
    ensures Sweep(s, id, now).Commit? ==> Inv(Sweep(s, id, now).state, now)
  {
    if Cancel(s, auth, caller, id).Commit? {
      StatusKeepsInv(s, id, Cancelled, now);
    }
    if Sweep(s, id, now).Commit? {
      StatusKeepsInv(s, id, Expired, now);
    }
  }

  lemma StepKeepsInv(s: State, c: Call)
    requires Inv(s, c.now)
    ensures Inv(Next(s, c), c.now)
  {
    if Step(s, c).Commit? {
      match c.op
      case DoInit(admin, cfg) =>
      case DoCreate(proposer, hash, balance) => CreateKeepsInv(s, c.auth, proposer, hash, c.now, balance);
      case DoCast(voter, id, kind, balance) => CastKeepsInv(s, c.auth, voter, id, kind, c.now, balance);
      case DoFinalize(id) => FinalizeKeepsInv(s, id, c.now);
      case DoExecute(id) => ExecuteKeepsInv(s, id, c.now);
      case DoCancel(caller, id) => WithdrawKeepsInv(s, c.auth, caller, id, c.now);
      case DoSweep(id) => WithdrawKeepsInv(s, c.auth, Address(0), id, c.now);
    }
  }

  lemma {:induction false} RunKeepsInv(s: State, from: U64, calls: seq<Call>)
    requires Inv(s, from) && Chronological(from, calls)
    ensures Inv(Run(s, calls), EndTime(from, calls))
    decreases |calls|
  {
    if calls == [] {
    } else {
      LaterKeepsInv(s, from, calls[0].now);
      StepKeepsInv(s, calls[0]);
      RunKeepsInv(Next(s, calls[0]), calls[0].now, calls[1..]);
    }
  }

  /** Main result: in every reachable state each tally is the sum of the recorded powers of its kind
      and the vote counter is the number of recorded voters. */
  lemma TalliesAreSums(calls: seq<Call>, id: U32)
    requires Chronological(0, calls) && id in Run(EMPTY, calls).proposals
    ensures var s := Run(EMPTY, calls); Tallies(s.proposals[id], id, s.votes)
  {
    RunKeepsInv(EMPTY, 0, calls);
  }

  // ---------------------------------------------------------------------------------------------
  // Frozen ballots, stable verdicts
  // ---------------------------------------------------------------------------------------------

  /** Everything about a proposal except its status. */
  predicate SameBallots(p: Proposal, q: Proposal) {
    p.(status := Pending) == q.(status := Pending)
  }

  lemma StepKeepsBallots(s: State, c: Call, id: U32)
    requires id in s.proposals && c.now > s.proposals[id].votingEnd
    requires s.mode.Some? && s.count !in s.proposals
    ensures var s' := Next(s, c);
      id in s'.proposals && SameBallots(s'.proposals[id], s.proposals[id]) && s'.config == s.config
  {
  }

  lemma {:induction false} BallotsFrozen(s: State, from: U64, calls: seq<Call>, id: U32)
    requires Inv(s, from) && Chronological(from, calls) && id in s.proposals
    requires from > s.proposals[id].votingEnd
    ensures var s' := Run(s, calls);
      id in s'.proposals && SameBallots(s'.proposals[id], s.proposals[id]) && s'.config == s.config
    decreases |calls|
  {
    if calls == [] {
    } else {
      LaterKeepsInv(s, from, calls[0].now);
      StepKeepsInv(s, calls[0]);
      StepKeepsBallots(s, calls[0], id);
      BallotsFrozen(Next(s, calls[0]), calls[0].now, calls[1..], id);
    }
  }

  /** What a finalize call reports. */
  function Reported(r: Outcome<(State, Status), Fault>): Outcome<Status, Fault> {
    match r
    case Commit(x) => Commit(x.1)
    case Abort(e) => Abort(e)
  }

  /** Main result: once voting is over, every finalize call on the proposal gives the same verdict or
      the same error, however many calls of any kind come in between and whatever its status. */
  lemma VerdictIsStable(before: seq<Call>, after: seq<Call>, id: U32, t: U64, t': U64)
    requires Chronological(0, before) && id in Run(EMPTY, before).proposals
    requires t > Run(EMPTY, before).proposals[id].votingEnd && EndTime(0, before) <= t
    requires Chronological(t, after) && EndTime(t, after) <= t'
    ensures var s := Run(EMPTY, before);
      Reported(Finalize(Run(s, after), id, t')) == Reported(Finalize(s, id, t))
  {
    var s := Run(EMPTY, before);
    RunKeepsInv(EMPTY, 0, before);
    LaterKeepsInv(s, EndTime(0, before), t);
    BallotsFrozen(s, t, after, id);
    SameBallotsSameReport(s, Run(s, after), id, t, t');
  }

  lemma SameBallotsSameReport(s: State, s': State, id: U32, t: U64, t': U64)
    requires id in s.proposals && id in s'.proposals && s.config == s'.config && s.config.Some?
    requires SameBallots(s'.proposals[id], s.proposals[id])
    requires t > s.proposals[id].votingEnd && t' > s.proposals[id].votingEnd
    ensures Reported(Finalize(s', id, t')) == Reported(Finalize(s, id, t))
  {
    assert Verdict(s'.proposals[id], s'.config.value) == Verdict(s.proposals[id], s.config.value);
  }

  /** Executed and Cancelled are not final, whatever the status names suggest: after voting ends a
      finalize call replaces any status by the verdict, and it succeeds exactly when the turnout
      can be computed with. */
  lemma FinalizeOverwritesAnyStatus(s: State, now: U64, id: U32)
    requires Inv(s, now) && id in s.proposals && now > s.proposals[id].votingEnd
    ensures
      var p := s.proposals[id];
      var fits := (p.votesFor + p.votesAgainst + p.votesAbstain) * BASIS <= I128_MAX;
      var r := Finalize(s, id, now);
      && (r.Commit? <==> fits)
      && (r.Commit? ==> r.state.0.proposals[id].status == if Carried(p, s.config.value) then Approved else Rejected)
  {
    VerdictIsExact(s.proposals[id], s.config.value);
  }

  /** So every executed proposal can be put back to Approved and executed again, by anyone. */
  lemma ExecutedCanRunAgain(s: State, now: U64, id: U32)
    requires Inv(s, now) && id in s.proposals && s.proposals[id].status == Executed
    ensures
      var r := Finalize(s, id, now);
      && r.Commit? && r.state.1 == Approved
      && !Approves(r.state.0, id, s.proposals[id].hash, now)
      && Execute(r.state.0, id, now) == Commit(s)
  {
    var r := Finalize(s, id, now);
    assert WithStatus(r.state.0, id, Executed).proposals == s.proposals;
  }

  /** A cancelled proposal is executable again exactly when its ballots carry it. */
  lemma CancelledRevivesIffCarried(s: State, now: U64, id: U32)
    requires Inv(s, now) && id in s.proposals && s.proposals[id].status == Cancelled
    requires now > s.proposals[id].votingEnd && now >= ExecutableAt(s.proposals[id])
    ensures
      var p := s.proposals[id];
      var fits := (p.votesFor + p.votesAgainst + p.votesAbstain) * BASIS <= I128_MAX;
      (Finalize(s, id, now).Commit? && Execute(Finalize(s, id, now).state.0, id, now).Commit?)
      <==> fits && Carried(p, s.config.value)
  {
    VerdictIsExact(s.proposals[id], s.config.value);
  }

  // ---------------------------------------------------------------------------------------------
  // An approval is always earned
  // ---------------------------------------------------------------------------------------------

  lemma EarnedByVotes(p: Proposal, id: U32, votes: map<VoteKey, Vote>, cfg: Config, now: U64)
    requires ValidConfig(cfg) && Booked(p, id, votes, cfg, now) && p.status in {Approved, Executed}
    ensures
      var f, a, b := Power(votes, id, For), Power(votes, id, Against), Power(votes, id, Abstain);
      && (f + a + b) * BASIS >= cfg.quorum * TotalVotingPower(cfg)
      && f * BASIS >= cfg.approval * (f + a)
      && f >= a && f + a > 0
  {
    VerdictIsExact(p, cfg);
    CarriedMeansMajority(p, cfg);
  }

  /** Main result: in every reachable state an approved or executed proposal met quorum and approval
      threshold on its recorded votes, without rounding, with at least as much For as Against. */
  lemma ApprovalIsEarned(calls: seq<Call>, id: U32)
    requires Chronological(0, calls) && id in Run(EMPTY, calls).proposals
    requires Run(EMPTY, calls).proposals[id].status in {Approved, Executed}
    ensures
      var s := Run(EMPTY, calls);
      var f, a, b := Power(s.votes, id, For), Power(s.votes, id, Against), Power(s.votes, id, Abstain);
      && s.config.Some?
      && (f + a + b) * BASIS >= s.config.value.quorum * TotalVotingPower(s.config.value)
      && f * BASIS >= s.config.value.approval * (f + a)
      && f >= a && f + a > 0
  {
    RunKeepsInv(EMPTY, 0, calls);
    var s := Run(EMPTY, calls);
    EarnedByVotes(s.proposals[id], id, s.votes, s.config.value, EndTime(0, calls));
  }

  /** Main result: the time test of the approval query is redundant in reachable states; a hash is
      approved exactly when some proposal for it is marked executed. */
  lemma QueryNeedsOnlyStatus(calls: seq<Call>, hash: Hash, now: U64)
    requires Chronological(0, calls) && EndTime(0, calls) <= now
    ensures
      var s := Run(EMPTY, calls);
      (exists id: U32 :: id < s.count && Approves(s, id, hash, now))
      <==> exists id :: id in s.proposals && s.proposals[id].hash == hash && s.proposals[id].status == Executed
  {
    RunKeepsInv(EMPTY, 0, calls);
    var s := Run(EMPTY, calls);
    LaterKeepsInv(s, EndTime(0, calls), now);
    if id :| id in s.proposals && s.proposals[id].hash == hash && s.proposals[id].status == Executed {
      assert Approves(s, id, hash, now);
    }
  }
}
