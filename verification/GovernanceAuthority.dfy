/** Nothing in governance happens in somebody's name without their signature. */
module GovernanceAuthority {
  import opened Prelude
  import opened GovernanceSpec
  import opened GovernanceProofs

  /** `s'` has the configuration, the votes and the fixed part of every proposal that `s` has. */
  predicate KeepsRecords(s: State, s': State) {
    && (s.config.Some? ==> s'.config == s.config)
    && (forall key :: key in s.votes ==> key in s'.votes && s'.votes[key] == s.votes[key])
    && (forall id :: id in s.proposals ==> id in s'.proposals && SameTerms(s.proposals[id], s'.proposals[id]))
  }

  predicate SameTerms(p: Proposal, p': Proposal) {
    p'.proposer == p.proposer && p'.hash == p.hash && p'.createdAt == p.createdAt && p'.votingEnd == p.votingEnd
    && p'.executionDelay == p.executionDelay
  }

  lemma CreateKeepsRecords(s: State, auth: set<Address>, proposer: Address, hash: Hash, now: U64, balance: I128)
    requires Keyed(s) && Create(s, auth, proposer, hash, now, balance).Commit?
    ensures KeepsRecords(s, Create(s, auth, proposer, hash, now, balance).state)
  {
  }

  lemma CastKeepsRecords(s: State, auth: set<Address>, voter: Address, id: U32, kind: VoteType, now: U64, balance: I128)
    requires Cast(s, auth, voter, id, kind, now, balance).Commit?
    ensures KeepsRecords(s, Cast(s, auth, voter, id, kind, now, balance).state)
  {
  }

  lemma StepKeepsRecords(s: State, c: Call)
    requires Keyed(s)
    ensures KeepsRecords(s, Next(s, c))
  {
    if Step(s, c).Commit? {
      match c.op
      case DoCreate(proposer, hash, balance) => CreateKeepsRecords(s, c.auth, proposer, hash, c.now, balance);
      case DoCast(voter, id, kind, balance) => CastKeepsRecords(s, c.auth, voter, id, kind, c.now, balance);
      case _ =>
    }
  }

  lemma KeepsRecordsTransitive(s: State, t: State, u: State)
    requires KeepsRecords(s, t) && KeepsRecords(t, u)
    ensures KeepsRecords(s, u)
  {
  }

  /** Main result: recorded votes, the configuration and the terms of a proposal never change. */
  lemma {:induction false} RunKeepsRecords(s: State, from: U64, calls: seq<Call>)
    requires Inv(s, from) && Chronological(from, calls)
    ensures KeepsRecords(s, Run(s, calls))
    decreases |calls|
  {
    if calls == [] {
    } else {
      var s' := Next(s, calls[0]);
      LaterKeepsInv(s, from, calls[0].now);
      StepKeepsInv(s, calls[0]);
      StepKeepsRecords(s, calls[0]);
      RunKeepsRecords(s', calls[0].now, calls[1..]);
      KeepsRecordsTransitive(s, s', Run(s', calls[1..]));
    }
  }

  /** The call that records this vote. */
  predicate Casts(c: Call, v: Vote) {
    && c.op.DoCast? && c.op.voter == v.voter && c.op.id == v.proposalId && c.op.kind == v.kind
    && v.voter in c.auth && c.now == v.timestamp
  }

  /** Vote `key` is on record in `s` because of call `c`, which the voter signed in time and which
      had the weight that the configured scheme gives. */
  predicate Backed(s: State, c: Call, key: VoteKey) {
    && key in s.votes
    && var v := s.votes[key];
    && Casts(c, v) && key == (v.proposalId, v.voter)
    && s.config.Some? && v.power == VotingPower(s.config.value, c.op.balance) > 0
    && key.0 in s.proposals && v.timestamp <= s.proposals[key.0].votingEnd
  }

  lemma NewVoteIsBacked(s: State, c: Call, key: VoteKey)
    requires Keyed(s) && key !in s.votes && key in Next(s, c).votes
    ensures Backed(Next(s, c), c, key)
  {
  }

  lemma StaysBacked(s: State, s': State, c: Call, key: VoteKey)
    requires Backed(s, c, key) && KeepsRecords(s, s')
    ensures Backed(s', c, key)
  {
    assert SameTerms(s.proposals[key.0], s'.proposals[key.0]);
  }

  /** Main result: every recorded vote was cast by its voter, signed, before voting ended, and weighs
      what the configured scheme gave that voter then. */
  lemma {:induction false} VotesAreSigned(s: State, from: U64, calls: seq<Call>, key: VoteKey) returns (k: nat)
    requires Inv(s, from) && Chronological(from, calls)
    requires key !in s.votes && key in Run(s, calls).votes
    ensures k < |calls| && Backed(Run(s, calls), calls[k], key)
    decreases |calls|
  {
    var s' := Next(s, calls[0]);
    LaterKeepsInv(s, from, calls[0].now);
    StepKeepsInv(s, calls[0]);
    if key in s'.votes {
      NewVoteIsBacked(s, calls[0], key);
      RunKeepsRecords(s', calls[0].now, calls[1..]);
      StaysBacked(s', Run(s', calls[1..]), calls[0], key);
      k := 0;
    } else {
      k := VotesAreSigned(s', calls[0].now, calls[1..], key);
      k := k + 1;
    }
  }

  predicate IsCancelled(s: State, id: U32) {
    id in s.proposals && s.proposals[id].status == Cancelled
  }

  /** Call `c` cancels proposal `id`, and its own proposer signed it. */
  predicate SignedCancel(s: State, c: Call, id: U32) {
    id in s.proposals && c.op == DoCancel(s.proposals[id].proposer, id) && s.proposals[id].proposer in c.auth
  }

  lemma CancelIsSigned(s: State, c: Call, id: U32)
    requires Keyed(s) && !IsCancelled(s, id) && IsCancelled(Next(s, c), id)
    ensures SignedCancel(Next(s, c), c, id)
  {
  }

  lemma StaysSigned(s: State, s': State, c: Call, id: U32)
    requires SignedCancel(s, c, id) && KeepsRecords(s, s')
    ensures SignedCancel(s', c, id)
  {
    assert SameTerms(s.proposals[id], s'.proposals[id]);
  }

  /** Main result: a proposal is cancelled only by a call that its own proposer signed. */
  lemma {:induction false} CancelledByProposer(s: State, from: U64, calls: seq<Call>, id: U32) returns (k: nat)
    requires Inv(s, from) && Chronological(from, calls)
    requires !IsCancelled(s, id) && IsCancelled(Run(s, calls), id)
    ensures k < |calls| && SignedCancel(Run(s, calls), calls[k], id)
    decreases |calls|
  {
    var s' := Next(s, calls[0]);
    LaterKeepsInv(s, from, calls[0].now);
    StepKeepsInv(s, calls[0]);
    if IsCancelled(s', id) {
      CancelIsSigned(s, calls[0], id);
      RunKeepsRecords(s', calls[0].now, calls[1..]);
      StaysSigned(s', Run(s', calls[1..]), calls[0], id);
      k := 0;
    } else {
      k := CancelledByProposer(s', calls[0].now, calls[1..], id);
      k := k + 1;
    }
  }

  /** Every proposal carries the voting period and the delay of the configuration. */
  predicate TermsFromConfig(s: State) {
    forall id :: id in s.proposals ==>
      && s.config.Some?
      && s.proposals[id].votingEnd == s.proposals[id].createdAt + s.config.value.votingPeriod
      && s.proposals[id].executionDelay == s.config.value.executionDelay
  }

  lemma StepKeepsTerms(s: State, c: Call)
    requires Keyed(s) && TermsFromConfig(s)
    ensures TermsFromConfig(Next(s, c))
  {
    StepKeepsRecords(s, c);
    if Step(s, c).Commit? && c.op.DoCreate? {
      CreateTakesTerms(s, c.auth, c.op.proposer, c.op.hash, c.now, c.op.balance);
    } else {
      OthersCreateNothing(s, c);
    }
  }

  lemma CreateTakesTerms(s: State, auth: set<Address>, proposer: Address, hash: Hash, now: U64, balance: I128)
    requires TermsFromConfig(s) && Create(s, auth, proposer, hash, now, balance).Commit?
    ensures TermsFromConfig(Create(s, auth, proposer, hash, now, balance).state)
  {
  }

  lemma OthersCreateNothing(s: State, c: Call)
    requires !(Step(s, c).Commit? && c.op.DoCreate?)
    ensures Next(s, c).proposals.Keys == s.proposals.Keys
  {
  }

  lemma {:induction false} RunKeepsTerms(s: State, from: U64, calls: seq<Call>)
    requires Inv(s, from) && Chronological(from, calls) && TermsFromConfig(s)
    ensures TermsFromConfig(Run(s, calls))
    decreases |calls|
  {
    if calls == [] {
    } else {
      LaterKeepsInv(s, from, calls[0].now);
      StepKeepsInv(s, calls[0]);
      StepKeepsTerms(s, calls[0]);
      RunKeepsTerms(Next(s, calls[0]), calls[0].now, calls[1..]);
    }
  }

  /** Main result: no proposal is executed before the configured voting period and delay have both
      passed since its creation, up to saturation of the clock. */
  lemma ExecutedWaitedOut(calls: seq<Call>, id: U32)
    requires Chronological(0, calls) && id in Run(EMPTY, calls).proposals
    requires Run(EMPTY, calls).proposals[id].status == Executed
    ensures var s := Run(EMPTY, calls);
      && s.config.Some?
      && EndTime(0, calls) >= Min(U64_MAX, s.proposals[id].createdAt
          + s.config.value.votingPeriod + s.config.value.executionDelay)
      && EndTime(0, calls) > s.proposals[id].createdAt + s.config.value.votingPeriod
  {
    RunKeepsInv(EMPTY, 0, calls);
    RunKeepsTerms(EMPTY, 0, calls);
    assert Booked(Run(EMPTY, calls).proposals[id], id, Run(EMPTY, calls).votes, Run(EMPTY, calls).config.value,
        EndTime(0, calls));
  }
}
