/** The on-chain governance contract: proposals, votes and their outcome (governance.rs). */
module Governance {
  import opened Prelude
  import opened GovernanceSpec
  import Spec = GovernanceSpec

  class GovernanceContract {
    var mode: Option<UpgradeMode>
    var admin: Option<Address>
    var config: Option<Config>
    var proposals: map<U32, Proposal>
    var count: U32
    var votes: map<VoteKey, Vote>

    function View(): State
      reads this
    {
      State(mode, admin, config, proposals, count, votes)
    }

    constructor ()
      ensures View() == EMPTY
    {
      mode, admin, config, proposals, count, votes := None, None, None, map[], 0, map[];
    }

    method InitGovernance(auth: set<Address>, newAdmin: Address, cfg: Config) returns (failure: Option<Fault>)
      modifies this
      ensures Follows(old(View()), View(), failure, Spec.Init(old(View()), auth, newAdmin, cfg))
    {
      if newAdmin !in auth {
        return Some(NotSigned);
      }
      if mode.Some? {
        return Some(AlreadyInitialized);
      }
      if cfg.quorum > 10000 || cfg.approval > 10000 {
        return Some(InvalidThreshold);
      }
      if cfg.approval < 5000 {
        return Some(ThresholdTooLow);
      }
      if cfg.minStake < 0 {
        return Some(InsufficientStake);
      }
      if TotalVotingPower(cfg) <= 0 {
        return Some(InvalidTotalVotingPower);
      }
      admin, config, count, mode := Some(newAdmin), Some(cfg), 0, Some(GovernanceMode);
      return None;
    }

    method CreateProposal(auth: set<Address>, proposer: Address, hash: Hash, now: U64, balance: I128)
      returns (failure: Option<Fault>, id: U32)
      modifies this
      ensures Follows(old(View()), View(), failure, Spec.Create(old(View()), auth, proposer, hash, now, balance))
      ensures id == old(count)
    {
      id := count;
      if proposer !in auth {
        return Some(NotSigned), id;
      }
      if config.None? {
        return Some(NotInitialized), id;
      }
      var cfg := config.value;
      if cfg.minStake != 0 && balance < cfg.minStake {
        return Some(InsufficientStake), id;
      }
      if now + cfg.votingPeriod > U64_MAX || id == U32_MAX {
        return Some(ArithmeticPanic), id;
      }
      var proposal := Proposal(id, proposer, hash, now, now, now + cfg.votingPeriod, cfg.executionDelay,
          Active, 0, 0, 0, 0);
      proposals := proposals[id := proposal];
      count := id + 1;
      return None, id;
    }

    method Load(id: U32) returns (failure: Option<Fault>)
      ensures match Spec.Find(View(), id)
              case Commit(p) => failure == None && id in proposals && proposals[id] == p
              case Abort(e) => failure == Some(e)
    {
      if proposals == map[] {
        return Some(ProposalsNotFound);
      }
      if id !in proposals {
        return Some(ProposalNotFound);
      }
      return None;
    }

    method CastVote(auth: set<Address>, voter: Address, id: U32, kind: VoteType, now: U64, balance: I128)
      returns (failure: Option<Fault>)
      modifies this
      ensures Follows(old(View()), View(), failure, Spec.Cast(old(View()), auth, voter, id, kind, now, balance))
    {
      if voter !in auth {
        return Some(NotSigned);
      }
      failure := Load(id);
      if failure.Some? {
        return;
      }
      var proposal := proposals[id];
      if proposal.status != Active {
        return Some(ProposalNotActive);
      }
      if now > proposal.votingEnd {
        return Some(VotingEnded);
      }
      if (id, voter) in votes {
        return Some(AlreadyVoted);
      }
      if config.None? {
        return Some(NotInitialized);
      }
      var power := VotingPower(config.value, balance);
      if power <= 0 {
        return Some(ZeroVotingPower);
      }
      match kind {
        case For =>
          if !FitsI128(proposal.votesFor + power) {
            return Some(VoteWeightOverflow);
          }
          proposal := proposal.(votesFor := proposal.votesFor + power);
        case Against =>
          if !FitsI128(proposal.votesAgainst + power) {
            return Some(VoteWeightOverflow);
          }
          proposal := proposal.(votesAgainst := proposal.votesAgainst + power);
        case Abstain =>
          if !FitsI128(proposal.votesAbstain + power) {
            return Some(VoteWeightOverflow);
          }
          proposal := proposal.(votesAbstain := proposal.votesAbstain + power);
      }
      if proposal.totalVotes == U32_MAX {
        return Some(ArithmeticPanic);
      }
      proposal := proposal.(totalVotes := proposal.totalVotes + 1);
      votes := votes[(id, voter) := Vote(voter, id, kind, power, now)];
      proposals := proposals[id := proposal];
    }

    method Store(id: U32, status: Status)
      requires id in proposals
      modifies this`proposals
      ensures View() == Spec.WithStatus(old(View()), id, status)
    {
      proposals := proposals[id := proposals[id].(status := status)];
    }

    method FinalizeProposal(id: U32, now: U64) returns (failure: Option<Fault>, status: Status)
      modifies this`proposals
      ensures match Spec.Finalize(old(View()), id, now)
              case Commit((s, verdict)) => failure == None && View() == s && status == verdict
              case Abort(e) => failure == Some(e) && View() == old(View())
    {
      status := Rejected;
      failure := Load(id);
      if failure.Some? {
        return;
      }
      var proposal := proposals[id];
      if config.None? {
        return Some(NotInitialized), status;
      }
      if now <= proposal.votingEnd {
        return Some(VotingStillActive), status;
      }
      var approvalVotes := proposal.votesFor + proposal.votesAgainst;
      if !FitsI128(approvalVotes) || !FitsI128(approvalVotes + proposal.votesAbstain) {
        return Some(VoteWeightOverflow), status;
      }
      var totalCast := approvalVotes + proposal.votesAbstain;
      var totalPower := TotalVotingPower(config.value);
      if totalPower <= 0 {
        return Some(InvalidTotalVotingPower), status;
      }
      if !FitsI128(totalCast * BASIS) {
        return Some(VoteWeightOverflow), status;
      }
      if TruncDiv(totalCast * BASIS, totalPower) >= config.value.quorum && approvalVotes != 0 {
        if !FitsI128(proposal.votesFor * BASIS) {
          return Some(VoteWeightOverflow), status;
        }
        if TruncDiv(proposal.votesFor * BASIS, approvalVotes) >= config.value.approval {
          status := Approved;
        }
      }
      Store(id, status);
    }

    method ExecuteProposal(id: U32, now: U64) returns (failure: Option<Fault>)
      modifies this`proposals
      ensures Follows(old(View()), View(), failure, Spec.Execute(old(View()), id, now))
    {
      failure := Load(id);
      if failure.Some? {
        return;
      }
      if proposals[id].status != Approved {
        return Some(ProposalNotApproved);
      }
      if now < ExecutableAt(proposals[id]) {
        return Some(ExecutionDelayNotMet);
      }
      Store(id, Executed);
    }

    method CancelProposal(auth: set<Address>, caller: Address, id: U32) returns (failure: Option<Fault>)
      modifies this`proposals
      ensures Follows(old(View()), View(), failure, Spec.Cancel(old(View()), auth, caller, id))
    {
      if caller !in auth {
        return Some(NotSigned);
      }
      failure := Load(id);
      if failure.Some? {
        return;
      }
      if proposals[id].status != Active {
        return Some(ProposalNotActive);
      }
      if caller != proposals[id].proposer {
        return Some(Unauthorized);
      }
      Store(id, Cancelled);
    }

    method SweepExpiredProposal(id: U32, now: U64) returns (failure: Option<Fault>)
      modifies this`proposals
      ensures Follows(old(View()), View(), failure, Spec.Sweep(old(View()), id, now))
    {
      failure := Load(id);
      if failure.Some? {
        return;
      }
      if proposals[id].status != Active {
        return Some(ProposalNotActive);
      }
      if now <= proposals[id].votingEnd {
        return Some(VotingStillActive);
      }
      Store(id, Expired);
    }

    /** The scan finds an approving proposal among the first `count` if there is one. */
    method IsUpgradeApproved(hash: Hash, now: U64) returns (approved: bool)
      ensures approved <==> exists id: U32 :: id < count && Approves(View(), id, hash, now)
    {
      var id := 0;
      while id < count
        invariant 0 <= id <= count
        invariant forall k: U32 :: k < id ==> !Approves(View(), k, hash, now)
      {
        if id in proposals {
          var p := proposals[id];
          if p.hash == hash && p.status == Executed && now >= SatAdd(p.votingEnd, p.executionDelay) {
            assert Approves(View(), id, hash, now);
            return true;
          }
        }
        id := id + 1;
      }
      return false;
    }
  }
}
