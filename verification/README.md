# Grainlify contracts: a verified model

This project models the two on-chain state machines of Grainlify and the helper machines they rest
on, and proves what holds over every run of them:

* the **program escrow** (`program-escrow/src/lib.rs`): locking funds, single and batch payouts,
  release schedules with their three release routes, disputes, pausing, paginated queries;
* **grainlify-core**: governance proposals and votes, the multisig with signer rotation and an
  execution nonce, and the exclusive choice between three upgrade authorities;
* the **rate limiter** of the escrow and the **circuit breaker** with its retry helper.

## How it is built

Each contract is described three times, and the three are tied together by proof.

* A `...Spec` module holds the stored state as a value and, for each entry point, a function from the
  state before to an `Outcome`: `Commit` of the state after, or `Abort` with the reason.
* A class (`ProgramEscrowContract`, `GovernanceContract`, `MultiSig`, `GrainlifyContract`,
  `ErrorRecovery`, `AntiAbuse`) has the storage fields and the entry points with their loops. Every
  entry point is proved to `Follows(old(View()), View(), failure, Spec.X(...))`: the new state is the
  committed one, or the call reports the reason and the state is as before. Where the source writes
  before it panics (a lock counted by the rate limiter, tokens sent by a trigger call, a shortage
  recorded in the breaker), the class has a `...Body` method that does write, and the entry point adds
  the host's rollback.
* The proof modules define runs as sequences of arbitrary transactions, with arbitrary signers,
  times and arguments, and prove the laws below about every state a run can reach.

| modules | content |
|---|---|
| `Prelude` | integer widths, options, outcomes |
| `RateLimiter`, `RateLimiterPeak`, `CircuitBreaker`, `Pagination` | the helper machines with their laws |
| `MultiSigSpec`, `MultiSig`, `MultiSigProofs`, `MultiSigOrigins` | the multisig |
| `GovernanceSpec`, `Governance`, `GovernanceProofs`, `GovernanceAuthority`, `GovernanceTerms`, `GovernanceScenarios` | governance |
| `CoreSpec`, `Core`, `CoreProofs`, `CoreAdmin`, `CoreInstalls`, `CoreGovernance` | upgrade authority, timelock, code replacements, governance inside the core |
| `EscrowSpec`, `EscrowLoops`, `ProgramEscrow`, `EscrowRuns` | the escrow, its loops, its runs and invariant |
| `EscrowSafety`, `EscrowAccess`, `EscrowOverdraft`, `EscrowRollback`, `EscrowShortages`, `EscrowHistory`, `EscrowOrigins`, `EscrowWhitelist`, `EscrowOversight`, `EscrowReasons` | what every run of the escrow keeps |
| `EscrowRefinement`, `EscrowDrain`, `EscrowDisputes`, `EscrowAlerts` | what the bulk routes, disputes and alerts do |
| `EscrowScenarios` | families of runs from deployment in which the escrow does less than one would expect |

`dafny verify dfyconfig.toml` checks everything.

## Reading the model

* A transaction is atomic. A Rust panic and an `Err` both become an `Abort` that changes nothing.
  Release builds keep overflow checks on, so an arithmetic overflow is an abort too; integer widths
  are explicit (`U32`, `U64`, `I128`), saturating additions are `SatAdd`, and division truncates.
* `require_auth` is membership in the set of addresses that signed the transaction. The version gate
  of the linked governance contract is one boolean of the transaction, and governance-token
  balances of proposers and voters are arbitrary arguments.
* The token is a map of balances. A transfer aborts when the payer is short or the amount negative.
  Anybody else may move tokens at any time (`DoOutsideTransfer`).
* The administrators' setters of the escrow (admin, pause flags, whitelists, caps, rate limits, alert
  threshold) are one step that sets any values (`DoReconfigure`), so the laws hold whatever
  administrators do. Ledger time is assumed monotone only where a lemma says so
  (`Chronological`, `Timely`, `Legal`).

## Where the code differs from what one would expect

* **Governance statuses are not final.** `finalize_proposal` has no status check, so an Executed,
  Cancelled or Expired proposal can be finalized, and then executed, again (`ExecutedCanRunAgain`,
  `CancelledRevivesIffCarried`, and the runs of `CancelledAndExecutedRunAgain`). The replay protection
  that `docs/grainlify-core/GOVERNANCE.md` (line 97) describes is that of multisig proposals, for which
  it holds (`ProposalsAreFinal`, `NonceNotReplayable`). What is stable in governance is the verdict
  (`VerdictIsStable`).
* **The pause flag** stops single and batch payouts and none of the schedule releases
  (`PauseStopsOnlyDirectPayouts`).
* **Scoped disputes can stop the rest.** `docs/program-escrow/IMPLEMENTATION_SUMMARY.md` (lines
  245-247) says that a trigger call skips disputed targets and releases the other due schedules. With
  more than a hundred eligible schedules a dispute draws later ones into the call, and if these do
  not fit the remaining balance the whole call fails (`DisputeCanStopTheRest`).
  `ScopedDisputeStopsNothingElse` states exactly when it does not.
* **Large-payout alerts** are said to be bounded. Ten per batch holds exactly when the total is below
  ten or less than eleven times a tenth of it, rounded down, remains (`TenIsExact`); it always does
  for totals from 100 up.
* **Failed payouts never trip the breaker.** Each recorded failure is followed by a panic, which rolls
  the record back, together with what a trigger call had paid before its shortage. Without the
  rollback the breaker would count the calls whose payments before the shortage the tokens still
  cover (`RollbackHidesShortages`): all of them if they pay nothing first (`EveryShortageWouldCount`),
  otherwise while the tokens last (`ShortagesCountWhileTokensLast`, `SecondShortageIsNotCounted`).
* **Manual and automatic releases** do not compare the amount with the remaining balance. The balance
  becomes negative exactly when such a release, passing its guards and covered by the contract's
  tokens, exceeds it (`OverdraftExact`, `SolventRunsExactly`), which takes tokens held at deployment,
  sent in from outside, or paid by the contract to itself (`RemainingCanGoNegative`, `BooksAreExact`).
* **The alert threshold** of single payouts is computed with a checked multiplication that can abort
  the payout; the batch has no such step (`BatchEqualsSingles` states the condition,
  `AlertStopsOnlySingles` the runs).
* **Paging** a capped query with a limit above 100 loses entries when the client steps by its own
  limit (`CappedPagesRebuild` states exactly when).
* **The rate limiter** does not keep M operations per window length. `PeakIsExact` says for every
  configuration how many some interval can hold, up to 2M-1; `LimitHoldsExactlyWhen` says for which
  configurations it is M. The default of 10 operations an hour with a minute between them is not one
  of these: it lets an address through nineteen times within an hour
  (`DeployedLimitAllowsNineteen`). An operation at time zero counts as none for the cooldown (`TimeZeroHasNoCooldown`), and
  nothing is limited at the last timestamp (`NoLimitAtLastTimestamp`).

## Model

| member | source | states |
|---|---|---|
| RateLimiter.AntiAbuse.SetWhitelist | program-escrow/src/lib.rs:175-185 | adds or removes exactly this address from the exempt set |
| RateLimiter.AntiAbuse.CheckRateLimit | program-escrow/src/lib.rs:187-247 | follows the specified window and cooldown decision; a rejection changes no record |
| RateLimiter.AcceptKeepsDiscipline | program-escrow/src/lib.rs:187-247 | one more accepted operation keeps the stored record a true summary of the address's history: sorted, cooled down, 2M-1 apart by a window |
| RateLimiter.RunKeepsDiscipline | program-escrow/src/lib.rs:187-247 | the same after any interleaving of attempts by any addresses |
| RateLimiter.WindowBound | program-escrow/src/lib.rs:187-247 | no half-open interval of window length holds more than 2M-1 accepted operations of one address |
| RateLimiter.CooldownRespected | program-escrow/src/lib.rs:206-218 | accepted operations at positive times are at least a cooldown apart |
| RateLimiter.RejectionHasCause | program-escrow/src/lib.rs:187-247 | whoever is rejected had an operation within the cooldown or M operations within the last window length |
| RateLimiter.ExemptAreNeverLimited | program-escrow/src/lib.rs:194-196 | every attempt of an exempt address is let through, whatever the configuration, and leaves no record |
| RateLimiter.NoLimitAtLastTimestamp | program-escrow/src/lib.rs:206-247 | at the last representable time saturation lets every attempt through |
| RateLimiterPeak.RunKeepsPace | program-escrow/src/lib.rs:187-247 | along every run, operations as many places apart as cannot share an interval are a window apart |
| RateLimiterPeak.PlanIsAccepted | program-escrow/src/lib.rs:187-247 | a schedule that fills a window and opens the next the moment it ends is accepted throughout |
| RateLimiterPeak.TimeZeroHasNoCooldown | program-escrow/src/lib.rs:206-218 | of any number of attempts at time zero a full window is accepted, whatever the cooldown |
| RateLimiterPeak.PeakIsExact | program-escrow/src/lib.rs:187-247 | for every configuration and n, some interval of window length can hold n operations if and only if n is at most M, or at most 2M-1 with cooldowns that fit the window and the clock |
| RateLimiterPeak.LimitHoldsExactlyWhen | program-escrow/src/lib.rs:187-247 | at most M operations per window length in every run if and only if M <= 1, or M cooldowns fill the window, or window plus cooldown passes the last timestamp |
| RateLimiterPeak.WindowBoundIsTight | program-escrow/src/lib.rs:220-235 | for every M > 1, 2M-1 operations are reached if and only if that many cooldowns fit, and 2M never |
| CircuitBreaker.ErrorRecovery.CheckAndAllow | program-escrow/src/error_recovery.rs:192-200 | rejects exactly in the open state, with the circuit-open code |
| CircuitBreaker.ErrorRecovery.RecordSuccess | program-escrow/src/error_recovery.rs:207-235 | clears the counters when closed, counts towards closing when half open, nothing when open |
| CircuitBreaker.ErrorRecovery.RecordFailure | program-escrow/src/error_recovery.rs:241-288 | counts, logs with the trimming loop, and opens at the threshold |
| CircuitBreaker.ErrorRecovery.OpenCircuit | program-escrow/src/error_recovery.rs:291-304 | opens, keeping the failure count |
| CircuitBreaker.ErrorRecovery.HalfOpenCircuit | program-escrow/src/error_recovery.rs:307-316 | half-opens, keeping the failure count |
| CircuitBreaker.ErrorRecovery.CloseCircuit | program-escrow/src/error_recovery.rs:321-336 | closes with all counters cleared |
| CircuitBreaker.ErrorRecovery.ResetCircuitBreaker | program-escrow/src/error_recovery.rs:341-357 | for the registered administrator with its signature, open becomes half open and everything else closed; for anyone else nothing changes |
| CircuitBreaker.ErrorRecovery.SetCircuitAdmin | program-escrow/src/error_recovery.rs:361-377 | names the first administrator, later only handed over by the present one |
| CircuitBreaker.ErrorRecovery.ExecuteWithRetry | program-escrow/src/error_recovery.rs:432-477 | the retry loop computes the recursive retry specification: final breaker, success, attempts, error code |
| CircuitBreaker.RetrySucceeds | program-escrow/src/error_recovery.rs:432-477 | a first success within min(attempts, budget) calls makes the retry succeed with exactly that many calls |
| CircuitBreaker.RetryExhausts | program-escrow/src/error_recovery.rs:432-477 | an operation failing so long is called exactly min(attempts, budget) times; circuit-open is reported exactly when attempts exceed the budget |
| CircuitBreaker.ClosedCountsStreak | program-escrow/src/error_recovery.rs:207-336 | while closed the counter is the row of failures since the last success or administrator action, below the threshold |
| CircuitBreaker.OpensExactlyAtThreshold | program-escrow/src/error_recovery.rs:241-288 | a failure opens a closed circuit exactly when that row reaches the threshold |
| CircuitBreaker.TrippedUntilClosed | program-escrow/src/error_recovery.rs:241-316 | a reached threshold stays reached until the circuit closes |
| CircuitBreaker.TrippedCircuitReopens | program-escrow/src/error_recovery.rs:285-288 | a circuit that failures tripped re-opens on any half-open failure |
| CircuitBreaker.ForcedCircuitReopensAtThreshold | program-escrow/src/error_recovery.rs:285-316 | after any closed run, a forced opening and a reset, following failures re-open the circuit exactly when they and the row before the forcing reach the threshold together |
| CircuitBreaker.RecoversAfterSuccesses | program-escrow/src/error_recovery.rs:207-235 | a half-opened circuit closes with exactly the success that meets the success threshold |
| CircuitBreaker.ResetTwiceCloses | program-escrow/src/error_recovery.rs:341-357 | from any circuit, two resets close it with clean counters; a half-open or closed one closes at the first |
| CircuitBreaker.AdministrationExact | program-escrow/src/error_recovery.rs:341-377 | exactly the registered administrator resets; anybody names the first one, the present one its successor |
| CircuitBreaker.TimesAreRecorded | program-escrow/src/error_recovery.rs:241-336 | over any run the failure time is that of the last failure, a closed circuit has no opening time, one that opens has that of the event |
| CircuitBreaker.LogIsNewestEntries | program-escrow/src/error_recovery.rs:241-283 | over any run the log is the newest entries ever written, in order |
| MultiSig.MultiSig.Init | grainlify-core/src/multisig.rs:75-105 | the duplicate scan accepts exactly distinct signers with a threshold they can meet, once |
| MultiSig.MultiSig.Propose | grainlify-core/src/multisig.rs:108-154 | the next id gets the action with a snapshot of signers and threshold |
| MultiSig.MultiSig.Approve | grainlify-core/src/multisig.rs:157-192 | one approval per snapshot signer before execution, else the right error |
| MultiSig.MultiSig.CanExecute | grainlify-core/src/multisig.rs:195-199 | unexecuted with the snapshot threshold of approvals |
| MultiSig.MultiSig.Execute | grainlify-core/src/multisig.rs:223-257 | runs the bound action once under the expected nonce, else the right error and no change |
| MultiSig.MultiSig.MarkExecuted | grainlify-core/src/multisig.rs:437-457 | marks that proposal with the nonce used, no other |
| MultiSig.MultiSig.Rebuild | grainlify-core/src/multisig.rs:308-316 | the rebuilding loop drops exactly one signer and keeps the order |
| MultiSig.MultiSig.RemoveSigner | grainlify-core/src/multisig.rs:284-324 | removes a signer unless the threshold would become unreachable |
| MultiSig.MultiSig.AddSigner | grainlify-core/src/multisig.rs:336-353 | appends a new signer |
| MultiSig.MultiSig.RotateSigners | grainlify-core/src/multisig.rs:368-435 | both loops compute removals then additions, with the threshold check at the end |
| MultiSigProofs.RemoveAllRemoves | grainlify-core/src/multisig.rs:380-393 | removals go through exactly for distinct current signers and give the set difference |
| MultiSigProofs.AddAllAdds | grainlify-core/src/multisig.rs:395-401 | additions go through exactly for distinct newcomers and give the union |
| MultiSigProofs.RotationIsSetUpdate | grainlify-core/src/multisig.rs:368-435 | a rotation succeeds exactly on its set conditions and leaves (S minus R) plus A |
| MultiSigProofs.RunKeepsInv | grainlify-core/src/multisig.rs:75-457 | distinct signers, reachable thresholds, sound proposals and nonce bookkeeping survive every run |
| MultiSigProofs.SignersStayViable | grainlify-core/src/multisig.rs:284-435 | in every reachable state signers are distinct and 1 <= threshold <= number of signers |
| MultiSigProofs.ExecutionsMatchNonces | grainlify-core/src/multisig.rs:223-257 | executed proposals and the nonces used are in bijection; each has enough distinct snapshot approvals and ran its own action at its nonce only |
| MultiSigProofs.ProposalsAreFinal | grainlify-core/src/multisig.rs:157-257 | action, snapshot, threshold never change, approvals only grow, an executed proposal never changes again |
| MultiSigProofs.NonceNotReplayable | grainlify-core/src/multisig.rs:206-257 | a nonce that drove one execution drives no other, whatever lies in between |
| MultiSigProofs.ApprovalsAreSigned | grainlify-core/src/multisig.rs:157-192 | every counted approval comes from a call signed by that snapshot signer for that proposal |
| MultiSigProofs.ApprovalsAllSucceed | grainlify-core/src/multisig.rs:157-192 | distinct missing snapshot signers can all still approve, one after the other |
| MultiSigProofs.AnyProposalCanPass | grainlify-core/src/multisig.rs:157-199 | after any rotations an unexecuted proposal becomes executable by its remaining snapshot signers, and then executes |
| MultiSigOrigins.ProposalOrigin | grainlify-core/src/multisig.rs:108-136 | behind every proposal is a signer's signed call that proposed its action, and its snapshot is the configuration just before that call |
| MultiSigOrigins.ExecutedUnderItsConfig | grainlify-core/src/multisig.rs:108-257 | every executed proposal had at least the threshold of approvals of the configuration it was proposed under, all by signers of that |
| MultiSigOrigins.ProposalCallsExact | grainlify-core/src/multisig.rs:108-257 | exact conditions for proposing, approving and executing in every reachable state |
| MultiSigOrigins.SignerCallsExact | grainlify-core/src/multisig.rs:75-353 | exact conditions for initialising, adding and removing, and the signer sets they leave |
| MultiSigOrigins.OnlySignersChangeSigners | grainlify-core/src/multisig.rs:284-435 | along every run, changes of the configuration are signed by a signer of the one before |
| MultiSigOrigins.ReasonsAreTrue | grainlify-core/src/multisig.rs:75-457 | the reason a failing call gives is true of the state and the call |
| Governance.GovernanceContract.InitGovernance | grainlify-core/src/governance.rs:139-182 | claims the mode with a valid configuration, once |
| Governance.GovernanceContract.CreateProposal | grainlify-core/src/governance.rs:184-229 | stores an active proposal under the next id, with stake and overflow checks |
| Governance.GovernanceContract.CastVote | grainlify-core/src/governance.rs:238-302 | records the vote and its tally together, or reports the error and changes nothing |
| Governance.GovernanceContract.FinalizeProposal | grainlify-core/src/governance.rs:304-366 | stores and returns the verdict of the ballots after voting ends, whatever the status |
| Governance.GovernanceContract.ExecuteProposal | grainlify-core/src/governance.rs:369-390 | marks an approved proposal executed after its delay |
| Governance.GovernanceContract.CancelProposal | grainlify-core/src/governance.rs:430-458 | the proposer withdraws an active proposal |
| Governance.GovernanceContract.SweepExpiredProposal | grainlify-core/src/governance.rs:499-522 | an active proposal past its voting end becomes expired |
| Governance.GovernanceContract.IsUpgradeApproved | grainlify-core/src/governance.rs:393-416 | the scan answers exactly whether some proposal approves the hash |
| GovernanceProofs.FloorTest | grainlify-core/src/governance.rs:333-353 | a floor-divided test equals its multiplied-out inequality |
| GovernanceProofs.VerdictIsExact | grainlify-core/src/governance.rs:321-361 | the verdict is the exact inequalities; the only error is ten thousand times the turnout not fitting 128 bits |
| GovernanceProofs.ForPowerIsMonotone | grainlify-core/src/governance.rs:321-361 | more For power never turns approval into rejection |
| GovernanceProofs.PowerSplitsAnywhere | grainlify-core/src/governance.rs:270-300 | the sum of recorded power does not depend on the order of votes |
| GovernanceProofs.PowerAfterVote | grainlify-core/src/governance.rs:270-300 | recording a new vote adds exactly its weight to its own sum |
| GovernanceProofs.RunKeepsInv | grainlify-core/src/governance.rs:139-522 | dense ids, tallies equal to sums of votes, and earned statuses survive every run |
| GovernanceProofs.TalliesAreSums | grainlify-core/src/governance.rs:238-302 | in every reachable state each tally is the sum of the recorded votes of its kind and the total counts the voters |
| GovernanceProofs.BallotsFrozen | grainlify-core/src/governance.rs:255-302 | after the voting end no call changes ballots, terms or configuration |
| GovernanceProofs.VerdictIsStable | grainlify-core/src/governance.rs:304-366 | every finalize after the voting end gives the same verdict or error, whatever happens in between |
| GovernanceProofs.FinalizeOverwritesAnyStatus | grainlify-core/src/governance.rs:304-366 | finalizing replaces any status by the verdict, and succeeds exactly when the turnout can be computed with |
| GovernanceProofs.ExecutedCanRunAgain | grainlify-core/src/governance.rs:304-390 | every executed proposal can be finalized to approved and executed again |
| GovernanceProofs.CancelledRevivesIffCarried | grainlify-core/src/governance.rs:304-390 | a cancelled proposal is executable again exactly when its ballots carry it |
| GovernanceProofs.ApprovalIsEarned | grainlify-core/src/governance.rs:321-390 | every approved or executed proposal meets quorum and threshold exactly, with For at least Against |
| GovernanceProofs.QueryNeedsOnlyStatus | grainlify-core/src/governance.rs:393-416 | in reachable states a hash is approved exactly when a proposal for it is executed; the time test is redundant |
| GovernanceAuthority.RunKeepsRecords | grainlify-core/src/governance.rs:139-522 | votes, configuration and the terms of proposals never change |
| GovernanceAuthority.VotesAreSigned | grainlify-core/src/governance.rs:238-302 | every recorded vote was signed by its voter before the voting end, with the weight of the scheme |
| GovernanceAuthority.CancelledByProposer | grainlify-core/src/governance.rs:430-458 | a proposal is cancelled only by a call its proposer signed |
| GovernanceAuthority.ExecutedWaitedOut | grainlify-core/src/governance.rs:369-390 | nothing is executed before voting period and delay have passed since creation |
| GovernanceTerms.FinalizeByScheme | grainlify-core/src/governance.rs:304-361 | in reachable states finalizing approves if and only if the turnout is the quorum's share of the token power or of the persons, per scheme, and For its share of the decided votes |
| GovernanceTerms.ApprovedPasses | grainlify-core/src/governance.rs:321-390 | every approved or executed proposal passes those tests on its recorded votes |
| GovernanceTerms.VoteWeighs | grainlify-core/src/governance.rs:541-552 | every recorded vote weighs its voter's balance at the call under token weighting, and one otherwise |
| GovernanceTerms.InitExact | grainlify-core/src/governance.rs:139-182 | the exact conditions of a valid configuration, and that it claims a free instance |
| GovernanceTerms.CreateExact | grainlify-core/src/governance.rs:184-229 | exact conditions of creating a proposal in reachable states, and the proposal it stores |
| GovernanceTerms.CastExact | grainlify-core/src/governance.rs:238-302 | exact conditions of casting a vote in reachable states |
| GovernanceTerms.StatusCallsExact | grainlify-core/src/governance.rs:369-522 | exact conditions of executing, cancelling and sweeping, which change nothing but the status |
| GovernanceTerms.ReasonsAreTrue | grainlify-core/src/governance.rs:139-522 | in reachable states the reason a failing call gives is true of it |
| GovernanceScenarios.CancelledAndExecutedRunAgain | grainlify-core/src/governance.rs:304-390 | for any participants and terms with one vote, a run in which a cancelled proposal is executed, and again after that |
| Core.GrainlifyContract.Init | grainlify-core/src/lib.rs:835-846 | claims the multisig mode together with its configuration |
| Core.GrainlifyContract.InitAdmin | grainlify-core/src/lib.rs:952-978 | claims the single-admin mode together with its admin |
| Core.GrainlifyContract.SetUpgradeDelay | grainlify-core/src/lib.rs:1069-1085 | the admin sets a delay of at least 300 seconds |
| Core.GrainlifyContract.ScheduleUpgrade | grainlify-core/src/lib.rs:1088-1121 | the admin replaces the pending upgrade |
| Core.GrainlifyContract.Upgrade | grainlify-core/src/lib.rs:1300-1348 | installs the scheduled hash after its time and consumes the schedule, unless the host refuses the hash |
| Core.GrainlifyContract.ExecuteUpgrade | grainlify-core/src/lib.rs:1257-1281 | installs the action of an executable multisig proposal through its execution |
| Core.GrainlifyContract.SetVersion | grainlify-core/src/lib.rs:1505-1535 | the admin sets the version number only |
| CoreProofs.OneAuthority | grainlify-core/src/lib.rs:614-627 | each authority is configured exactly if its mode is claimed, and every installation came through it |
| CoreProofs.ModeIsPermanent | grainlify-core/src/lib.rs:614-627 | a claimed mode never changes |
| CoreProofs.PendingHasSchedule | grainlify-core/src/lib.rs:1088-1121 | the pending upgrade is the latest schedule, executable no earlier than 300 seconds after it |
| CoreProofs.EveryUpgradeWasScheduled | grainlify-core/src/lib.rs:1300-1319 | each single-admin upgrade consumes the latest schedule, of the same hash, made at least 300 seconds before |
| CoreAdmin.ClaimsExact | grainlify-core/src/lib.rs:835-978 | in reachable states exactly a free instance can be claimed, and what claiming stores |
| CoreAdmin.AdminCallsExact | grainlify-core/src/lib.rs:1069-1348 | exact conditions and effects of setting the delay, scheduling, upgrading and setting the version |
| CoreAdmin.ReasonsAreTrue | grainlify-core/src/lib.rs:835-1348 | the reason a failing claim or administrator's call gives is true of it |
| CoreAdmin.AdminIsPermanent | grainlify-core/src/lib.rs:952-978 | the administrator never changes |
| CoreAdmin.UpgradeWaitsItsDelay | grainlify-core/src/lib.rs:1088-1121 | every single-admin upgrade waits, after the latest schedule of its hash, the delay last set before that schedule, or a day |
| CoreAdmin.AdminInstallsExactly | grainlify-core/src/lib.rs:1300-1319 | in single-admin mode the installed code is exactly the hashes of the committed upgrade calls, in order |
| CoreAdmin.UpgradeInstallsItsHash | grainlify-core/src/lib.rs:1314-1317 | each committed upgrade call installs its hash, once |
| CoreGovernance.CoreRunIsGovernanceRun | grainlify-core/src/governance.rs:139-522 | inside the core, governance storage is always that of its own committed calls run alone, up to the mode another authority claimed |
| CoreGovernance.CoreTalliesAndApprovals | grainlify-core/src/governance.rs:238-390 | in every reachable state of the core tallies are sums of votes and approvals are earned |
| CoreGovernance.CoreVerdictIsStable | grainlify-core/src/governance.rs:304-366 | the verdict stays the same across any core transactions after voting |
| CoreInstalls.RunKeepsEffects | grainlify-core/src/lib.rs:1257-1281 | along every core run the multisig invariant holds and its effects are the replacements, in order |
| CoreInstalls.InstallsMatchProposals | grainlify-core/src/lib.rs:1257-1281 | in multisig mode code replacements and executed proposals correspond one to one by nonce, each with its threshold of distinct snapshot approvals |
| ProgramEscrow.ProgramEscrowContract.InitializeProgram | program-escrow/src/lib.rs:708-756 | registers the program once, with empty books |
| ProgramEscrow.ProgramEscrowContract.LockProgramFunds | program-escrow/src/lib.rs:909-1009 | rate limit, caps, transfer, counters and balance check in the source's order |
| ProgramEscrow.ProgramEscrowContract.LockBody | program-escrow/src/lib.rs:909-1009 | the lock as far as it runs: once the rate limiter lets it through the operation is counted whatever panic follows, and at the final balance check the tokens have moved |
| ProgramEscrow.ProgramEscrowContract.SinglePayout | program-escrow/src/lib.rs:2108-2250 | guards, transfer, books and breaker of one payout |
| ProgramEscrow.ProgramEscrowContract.SingleBody | program-escrow/src/lib.rs:2108-2250 | the payout as far as it runs, with a shortage recorded in the breaker before the panic |
| ProgramEscrow.ProgramEscrowContract.BatchPayout | program-escrow/src/lib.rs:1891-2098 | guards, checked total, transfer loop and books of a batch |
| ProgramEscrow.ProgramEscrowContract.BatchBody | program-escrow/src/lib.rs:1891-2098 | the batch as far as it runs, with a shortage recorded in the breaker before the panic |
| ProgramEscrow.ProgramEscrowContract.AddUp | program-escrow/src/lib.rs:1980-1991 | the summing loop gives the checked total or the first error |
| ProgramEscrow.ProgramEscrowContract.SendAll | program-escrow/src/lib.rs:2013-2036 | the transfer loop makes all transfers and history entries in order, or fails |
| ProgramEscrow.ProgramEscrowContract.CreateProgramReleaseSchedule | program-escrow/src/lib.rs:2281-2350 | appends a schedule under the next id |
| ProgramEscrow.ProgramEscrowContract.TriggerProgramReleases | program-escrow/src/lib.rs:2353-2500 | releases the selection and returns its size |
| ProgramEscrow.ProgramEscrowContract.TriggerBody | program-escrow/src/lib.rs:2353-2500 | the call as far as it runs: if its loop panics, exactly the tokens of the releases before are gone, a shortage is recorded in the breaker, and nothing else is stored |
| ProgramEscrow.ProgramEscrowContract.ReleaseDue | program-escrow/src/lib.rs:2394-2479 | the skipping, capped, aborting loop equals releasing the first hundred eligible schedules of the state before it, and if it aborts, the releases before that one; the tokens move at once |
| ProgramEscrow.ProgramEscrowContract.PayRow | program-escrow/src/lib.rs:2415-2476 | one released schedule inside that loop |
| ProgramEscrow.ProgramEscrowContract.ReleaseProgramScheduleManual | program-escrow/src/lib.rs:2990-3107 | a release by id at any time, by the payout key |
| ProgramEscrow.ProgramEscrowContract.ReleaseProgScheduleAutomatic | program-escrow/src/lib.rs:3109-3235 | a release by id once due |
| ProgramEscrow.ProgramEscrowContract.FindSchedule | program-escrow/src/lib.rs:3005-3014 | the scan finds the first schedule with the id |
| ProgramEscrow.ProgramEscrowContract.Disburse | program-escrow/src/lib.rs:3042-3081 | transfer, flag, history entry and charge of one release |
| ProgramEscrow.ProgramEscrowContract.OpenDispute | program-escrow/src/lib.rs:1254-1293 | the admin opens a dispute on a scope that has none open |
| ProgramEscrow.ProgramEscrowContract.CloseDispute | program-escrow/src/lib.rs:1295-1365 | the admin resolves or cancels an open dispute |
| ProgramEscrow.ProgramEscrowContract.SetCircuitAdmin | program-escrow/src/lib.rs:1538-1549 | the contract's admin names the first breaker administrator, who hands over |
| ProgramEscrow.ProgramEscrowContract.ResetCircuitBreaker | program-escrow/src/lib.rs:1555-1562 | the breaker administrator resets |
| ProgramEscrow.ProgramEscrowContract.ConfigureCircuitBreaker | program-escrow/src/lib.rs:1574-1603 | the breaker administrator sets thresholds, the failure threshold at least one |
| ProgramEscrow.ProgramEscrowContract.EmergencyOpenCircuit | program-escrow/src/lib.rs:1622-1629 | the breaker administrator forces the circuit open |
| ProgramEscrow.ProgramEscrowContract.QueryPayoutsByRecipient | program-escrow/src/lib.rs:2580-2612 | exactly the requested slice of the recipient's payouts |
| ProgramEscrow.ProgramEscrowContract.QueryPayoutsByAmount | program-escrow/src/lib.rs:2615-2648 | exactly the requested slice of the payouts in the amount range |
| ProgramEscrow.ProgramEscrowContract.QueryPayoutsByTimestamp | program-escrow/src/lib.rs:2651-2684 | exactly the requested slice of the payouts in the time range |
| ProgramEscrow.ProgramEscrowContract.QuerySchedulesByRecipient | program-escrow/src/lib.rs:2687-2718 | exactly the requested slice of the recipient's schedules |
| ProgramEscrow.ProgramEscrowContract.QuerySchedulesByStatus | program-escrow/src/lib.rs:2721-2752 | exactly the requested slice by released flag |
| ProgramEscrow.ProgramEscrowContract.QueryReleasesByRecipient | program-escrow/src/lib.rs:2755-2786 | exactly the requested slice of the recipient's releases |
| ProgramEscrow.ProgramEscrowContract.GetProgramReleaseSchedules | program-escrow/src/lib.rs:2503-2510 | the raw slice, at most 100 long |
| ProgramEscrow.ProgramEscrowContract.GetPendingSchedules | program-escrow/src/lib.rs:2845-2880 | the slice of unreleased schedules, at most 100 long |
| ProgramEscrow.ProgramEscrowContract.GetDueSchedules | program-escrow/src/lib.rs:2883-2917 | the slice of unreleased schedules that are due, at most 100 long |
| EscrowLoops.PassOver | program-escrow/src/lib.rs:2399-2479 | each pass skips, releases or aborts exactly as the state before the loop predicts |
| EscrowLoops.SelectedStartsWith | program-escrow/src/lib.rs:2394-2404 | when the loop stops, what it has found is the whole selection |
| EscrowRuns.TransferAllCosts | program-escrow/src/lib.rs:2013-2036 | a row of transfers costs the contract at most its sum, exactly that if none is to itself |
| EscrowRuns.ReleaseAtKeepsInv | program-escrow/src/lib.rs:3042-3102 | one release keeps funding, numbering and books and is not a direct payout |
| EscrowRuns.TriggerEachKeepsInv | program-escrow/src/lib.rs:2394-2488 | so does a row of triggered releases |
| EscrowRuns.StepKeepsInv | program-escrow/src/lib.rs:708-3235 | every transaction keeps the invariant and moves the direct total by exactly what it pays directly |
| EscrowRuns.RunKeepsInv | program-escrow/src/lib.rs:708-3235 | the invariant holds in every reachable ledger |
| EscrowSafety.Conservation | program-escrow/src/lib.rs:972-988 | total minus remaining equals all direct payouts plus the amounts of released schedules, and tokens cover what remains |
| EscrowSafety.BooksAreExact | program-escrow/src/lib.rs:972-988 | without transfers from outside and payouts to itself the contract's tokens equal the remaining balance, never negative |
| EscrowSafety.LockGuardOnlyStopsSelf | program-escrow/src/lib.rs:978-988 | the balance check of a lock fires for no payer but the contract itself, and then exactly without a surplus |
| EscrowSafety.SchedulesAreFinal | program-escrow/src/lib.rs:2281-3235 | schedules are never rewritten except to be released, once, and history only grows |
| EscrowSafety.EachSchedulePaidOnce | program-escrow/src/lib.rs:2406-2463 | ids are dense, and history lists every released schedule exactly once with its recipient and amount |
| EscrowSafety.FailedPayoutsNeverTrip | program-escrow/src/lib.rs:1995-2004 | between transactions no failure is on record, and without a forced opening the circuit is closed |
| EscrowSafety.OnlyTheAdminOpensTheCircuit | program-escrow/src/lib.rs:1622-1629 | behind every circuit that is not closed there is a forced opening signed by the breaker's administrator |
| EscrowLoops.PaidRowStopsHere | program-escrow/src/lib.rs:2434-2456 | where a row of releases first fails, what has been paid is exactly the row up to there |
| EscrowRollback.ShortRowOtherTokens | program-escrow/src/lib.rs:2434-2456 | a short row meets its shortage again with other tokens if they cover the releases before it, and a failed transfer otherwise |
| EscrowRollback.RollbackHidesShortages | program-escrow/src/lib.rs:1995-2004 | calls short of funds leave no trace; without the rollback only tokens and breaker would change, and the breaker would count exactly the calls whose releases before the shortage the tokens still cover, opening at the threshold |
| EscrowShortages.NothingPaidFirstExactly | program-escrow/src/lib.rs:2434-2456 | a short call pays nothing first exactly if it is single, batch, or a trigger call whose first selected schedule fails |
| EscrowShortages.EveryShortageWouldCount | program-escrow/src/lib.rs:1995-2004 | calls that pay nothing first would all count, and nothing but the breaker would change |
| EscrowShortages.ShortagesCountWhileTokensLast | program-escrow/src/lib.rs:2434-2456 | up to the threshold all would count if and only if the tokens cover all they pay before falling short |
| EscrowShortages.ShortageIsDescribed | program-escrow/src/lib.rs:1995-2002 | a recorded shortage counts once and names route, program, reason code and time |
| EscrowScenarios.SecondShortageIsNotCounted | program-escrow/src/lib.rs:2434-2456 | for any two uneven schedules, a run after which a second short trigger call would fail on a transfer and not be counted |
| EscrowScenarios.AlertStopsOnlySingles | program-escrow/src/monitoring.rs:273-276 | for any total with too large an alert threshold, a run after which any amount can be paid in a batch and none singly |
| EscrowScenarios.DeployedLimitAllowsNineteen | program-escrow/src/lib.rs:1659-1668 | the deployed limit of ten locks an hour can let one address through nineteen times within an hour, and no more |
| EscrowScenarios.DeployedBreakerOpensAtThree | program-escrow/src/error_recovery.rs:76-83 | as deployed the circuit opens at the third failure in a row, closes at one success, and remembers ten failures |
| EscrowOverdraft.OverdraftExact | program-escrow/src/lib.rs:3042-3081 | in a reachable ledger, a call makes the remaining balance negative if and only if it is an admitted, affordable release by id above that balance |
| EscrowOverdraft.SolventRunsExactly | program-escrow/src/lib.rs:3042-3081 | the remaining balance is never negative during a run if and only if the run has no such release |
| EscrowScenarios.RemainingCanGoNegative | program-escrow/src/lib.rs:3042-3081 | for any amount, a run from deployment that ends with minus that amount remaining |
| EscrowScenarios.DisputeCanStopTheRest | program-escrow/src/lib.rs:2399-2443 | for any larger last schedule, a run in which disputing one schedule makes the trigger call fail for the other ninety-nine |
| EscrowScenarios.ElevenAlertsHappen | program-escrow/src/lib.rs:2045-2061 | for any total that fails the test, a run whose batch raises eleven alerts |
| EscrowHistory.HistoryAddsUp | program-escrow/src/lib.rs:1891-2500 | the payout history sums to the direct payouts plus what trigger calls released |
| EscrowHistory.LocksObeyTheLimit | program-escrow/src/lib.rs:909-934 | over any escrow run the committed locks of one address obey the 2M-1 bound and the cooldown |
| EscrowAccess.TotalIsWhatWasLocked | program-escrow/src/lib.rs:909-1009 | a program's total is the sum of its locks; id and key never change |
| EscrowAccess.TotalWithinCap | program-escrow/src/lib.rs:940-968 | locks made under a cap leave the total within it |
| EscrowAccess.FundsNeedTheKey | program-escrow/src/lib.rs:1891-3235 | tokens leave or the balance falls only through the payout routes, signed by the registered key, with the circuit not open and no global dispute |
| EscrowAccess.LockExact | program-escrow/src/lib.rs:909-1009 | in reachable ledgers a lock succeeds exactly on its caller-visible conditions, and what it moves |
| EscrowAccess.ReleaseExact | program-escrow/src/lib.rs:2990-3235 | in reachable ledgers a release by id succeeds exactly on its guards and the contract's tokens, and what it leaves |
| EscrowAccess.PauseStopsOnlyDirectPayouts | program-escrow/src/lib.rs:1204-1219 | the release pause stops single and batch payouts and changes nothing for the other routes |
| EscrowWhitelist.OutsidersAreLeftOut | program-escrow/src/lib.rs:2152-2167 | with the whitelist enforced, no payout route gives tokens to, or releases a schedule of, an address outside it, and no call naming one goes through |
| EscrowWhitelist.OnlyOutsidersAreRefused | program-escrow/src/lib.rs:1933-1949 | a call is refused for the whitelist only while it is enforced and only for naming somebody outside it |
| EscrowOrigins.CreateExact | program-escrow/src/lib.rs:2281-2350 | exact conditions of creating a schedule in reachable ledgers, and the schedule it appends |
| EscrowOrigins.ScheduleOrigin | program-escrow/src/lib.rs:2325-2346 | every schedule carries the recipient, amount and release time of the committed create call that appended it |
| EscrowOrigins.ReleasedOnTime | program-escrow/src/lib.rs:2406-2409 | trigger calls and automatic releases never release a schedule before the time its create call asked for |
| EscrowOrigins.RecordOrigin | program-escrow/src/lib.rs:2013-2028 | every payout record is one payment of an earlier committed call: its recipient, its amount, its time |
| EscrowOversight.DisputesExact | program-escrow/src/lib.rs:1254-1365 | exact conditions of opening and closing disputes in reachable ledgers, and the records they leave |
| EscrowOversight.OnlyTheAdminEndsDisputes | program-escrow/src/lib.rs:1295-1365 | an open dispute ends only by a call the administrator signed, Resolved or Cancelled as it asked |
| EscrowOversight.OpenDisputeOrigin | program-escrow/src/lib.rs:1254-1293 | every open dispute on record was opened by a call the administrator of that time signed |
| EscrowOversight.BreakerCallsExact | program-escrow/src/lib.rs:1538-1629 | exact conditions and effects of the four breaker calls |
| EscrowOversight.PayoutsReportOneSuccess | program-escrow/src/lib.rs:2029-2030 | a payout that goes through reports exactly one success, unless it is a trigger call with nothing to release |
| EscrowOversight.RegisteredOnce | program-escrow/src/lib.rs:708-756 | exactly the first registration goes through, with empty books |
| EscrowReasons.ReasonsAreTrue | program-escrow/src/lib.rs:708-3235 | in every reachable ledger the reason a failing call gives is true of it |
| EscrowRefinement.SinglesExact | program-escrow/src/lib.rs:2108-2215 | exactly when a row of single payouts goes through, and what it leaves |
| EscrowRefinement.BatchExact | program-escrow/src/lib.rs:1891-2043 | exactly when a batch goes through, and what it leaves |
| EscrowRefinement.BatchSizeIsBounded | program-escrow/src/lib.rs:1954-1972 | a batch of none, of more than a hundred, or with lists of different length fails |
| EscrowRefinement.BatchEqualsSingles | program-escrow/src/lib.rs:1891-2043 | a batch of 1 to 100 equals the row of single payouts, up to the alert-threshold overflow and half-open counting |
| EscrowRefinement.TriggerEachTwin | program-escrow/src/lib.rs:2399-2488 | any row of eligible schedules is released alike by both routes |
| EscrowRefinement.TriggerEqualsAutomatics | program-escrow/src/lib.rs:3109-3235 | a trigger call equals the automatic releases of what it selects, up to payout records and half-open counting |
| EscrowDrain.FundsDecide | program-escrow/src/lib.rs:2434-2456 | with tokens covering the remaining balance, a row of releases goes through exactly when its total fits that balance |
| EscrowDrain.TriggerReleasesSelection | program-escrow/src/lib.rs:2394-2488 | a trigger call flags exactly the first min(100, n) eligible schedules and charges exactly their amounts |
| EscrowDrain.OneCallDrainsAHundred | program-escrow/src/lib.rs:2394-2488 | with enough funds a call succeeds and leaves exactly the rest eligible |
| EscrowDrain.RepeatedCallsDrain | program-escrow/src/lib.rs:2394-2488 | k calls drain n eligible schedules exactly when 100 k >= n |
| EscrowDisputes.BulkPaysEachRecipient | program-escrow/src/lib.rs:2013-2036 | batch and trigger give every recipient exactly the sum of its own entries |
| EscrowDisputes.StepSpares | program-escrow/src/lib.rs:1229-1242 | no payout call pays a scope under open dispute |
| EscrowDisputes.DisputeShieldsScope | program-escrow/src/lib.rs:1229-1365 | nor does any in a run between opening and closing the dispute |
| EscrowDisputes.ClosingUndoesOpening | program-escrow/src/lib.rs:1254-1365 | closing restores exactly the earlier open disputes and cannot be repeated |
| EscrowDisputes.ScopedDisputeStopsNothingElse | program-escrow/src/lib.rs:2399-2443 | under a scoped dispute a trigger call succeeds exactly when what it then selects fits the remaining balance, and then releases everything outside the scope it would have selected; up to a hundred eligible schedules a working call keeps working |
| EscrowAlerts.AtMostTenAlerts | program-escrow/src/lib.rs:2045-2061 | a committed batch raises at most ten alerts if the total passes the test, as every total from 100 does |
| EscrowAlerts.FundedBatch | program-escrow/src/lib.rs:1995-2027 | in a funded ledger a guarded batch commits exactly when its sum fits the remaining balance; its transfers cannot fail |
| EscrowAlerts.TestOfTotalIsExact | program-escrow/src/lib.rs:2045-2061 | ten bounds every batch that the whole total can pay exactly when the total passes the test |
| EscrowAlerts.TenIsExact | program-escrow/src/lib.rs:2045-2061 | in every reachable ledger with payouts open, ten bounds all committing batches if and only if the total is below ten or less than eleven times the threshold remains |
| Pagination.FilterPage | program-escrow/src/lib.rs:2580-2612 | the skipping loop returns exactly the slice of the filtered list |
| Pagination.FilterKeepsExactly | program-escrow/src/lib.rs:2580-2612 | filtering keeps exactly the elements that satisfy the test, in order, none twice |
| Pagination.SliceHolds | program-escrow/src/lib.rs:2580-2612 | element j of a page is element offset + j of the list, and a page is full unless the list ends |
| Pagination.RawPage | program-escrow/src/lib.rs:800-819 | the position loop returns exactly the capped slice |
| Pagination.CappedPagesRebuild | program-escrow/src/lib.rs:2845-2917 | capped pages rebuild the list exactly when the limit is within the cap or the list fits a page |
| Pagination.UncappedPagesRebuild | program-escrow/src/lib.rs:2580-2786 | uncapped pages rebuild the list for any limit |

## Left out

- ProgramEscrow.ProgramEscrowContract.CloseDispute: resolving and cancelling are one method with a flag for the status they leave; their different messages are not modelled.
- ProgramEscrow.ProgramEscrowContract.OpenDispute: the reason text of a dispute is not modelled.
- ProgramEscrow.ProgramEscrowContract.SinglePayout: events, alerts beyond the overflow of their threshold, monitoring counters and the reentrancy flag are not modelled.
- ProgramEscrow.ProgramEscrowContract.InitializeProgram: the token's address is stored, but the balances in the model are those of that one token only.
- ProgramEscrow.ProgramEscrowContract.SingleBody: when another panic than a shortage ends the body, what it had written until then is not stated; the entry point undoes it in any case.
- ProgramEscrow.ProgramEscrowContract.ReleaseDue: program, schedules and history are a copy that is stored after the loop, as in the source; list lengths are not limited to 32 bits.
- ProgramEscrow.ProgramEscrowContract.LockBody: when an overflow ends the body, whether the tokens have moved is not stated.
- CircuitBreaker.ErrorRecovery.RecordSuccess: the success counter is not limited to 32 bits; ClosedCountsStreak shows that it stays within the success threshold.
- CircuitBreaker.ErrorRecovery.ExecuteWithRetry: the retried operation answers by call number and does not touch the breaker.
- RateLimiter.WindowBound: holds for times below the last representable one and for one configuration; NoLimitAtLastTimestamp shows why the first is needed.
- Governance.GovernanceContract.CastVote: the token's answer is an arbitrary number; no claim of one vote per token is made, since tokens can move between voters.
- Governance.GovernanceContract.CreateProposal: titles, descriptions and the governance token's address are not modelled.
- Core.GrainlifyContract.Upgrade: replacing the bytecode is an opaque entry in a list; migrations after it are not modelled.
- The token contract's own limits: a recipient's balance overflowing 128 bits is not an abort here.
- The administrators' setters one by one: they are a single step that may set anything, which says nothing about who may call them.
- Events, storage lifetimes, gas-proxy fields and performance counters: they never influence control flow.
- The cross-contract governance client, reduced to its boolean answer.
- Fee helpers, which no payout or lock calls; semantic-version strings; state migrations; the `_v2` wrappers and their program-id check; aggregate statistics.
- The bounty escrow, the `soroban/` contracts, the TypeScript SDK and all scripts.
