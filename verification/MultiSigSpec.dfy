/** What every entry point of the self-governing multisig does to its stored state (multisig.rs). */
module MultiSigSpec {
  import opened Prelude

  datatype Config = Config(signers: seq<Address>, threshold: U32)

  datatype Action = Upgrade(wasmHash: Hash)

  datatype Proposal = Proposal(
    action: Action,
    approvals: seq<Address>,
    executed: bool,
    signers: seq<Address>,
    threshold: U32,
    executedNonce: Option<U64>)

  /** A bound action that was run, and for which proposal. */
  datatype Effect = Effect(proposalId: U64, action: Action)

  datatype State = State(
    config: Option<Config>,
    proposals: map<U64, Proposal>,
    counter: U64,
    nonce: U64,
    effects: seq<Effect>)

  datatype Fault =
    | AlreadyInitialized | NotInitialized | Unauthorized
    | NotSigner | AlreadyApproved | ProposalNotFound | AlreadyExecuted | ThresholdNotMet | InvalidThreshold
    | ActionMismatch | NonceMismatch | RemovalWouldBreakThreshold | AlreadySigner
    | ActionFailed | Overflow

  const EMPTY := State(None, map[], 0, 0, [])

  predicate Distinct(s: seq<Address>) {
    forall i, j :: 0 <= i < j < |s| ==> s[i] != s[j]
  }

  function ToSet(s: seq<Address>): set<Address> {
    set x | x in s
  }

  // ---------------------------------------------------------------------------------------------
  // Specification of every entry point
  // ---------------------------------------------------------------------------------------------

  function Init(s: State, signers: seq<Address>, threshold: U32): Outcome<State, Fault> {
    if s.config.Some? then Abort(AlreadyInitialized)
    else if threshold == 0 || threshold > |signers| then Abort(InvalidThreshold)
    else if !Distinct(signers) then Abort(AlreadySigner)
    else Commit(s.(config := Some(Config(signers, threshold)), counter := 0, nonce := 0))
  }

  /** The current configuration, provided `caller` signed the call and is a current signer. */
  function Govern(s: State, auth: set<Address>, caller: Address): Outcome<Config, Fault> {
    if caller !in auth then Abort(Unauthorized)
    else if s.config.None? then Abort(NotInitialized)
    else if caller !in s.config.value.signers then Abort(NotSigner)
    else Commit(s.config.value)
  }

  function Propose(s: State, auth: set<Address>, proposer: Address, action: Action): Outcome<State, Fault> {
    match Govern(s, auth, proposer)
    case Abort(e) => Abort(e)
    case Commit(config) =>
      if s.counter == U64_MAX then Abort(Overflow)
      else
        var id: U64 := s.counter + 1;
        var proposal := Proposal(action, [], false, config.signers, config.threshold, None);
        Commit(s.(proposals := s.proposals[id := proposal], counter := id))
  }

  function Approve(s: State, auth: set<Address>, id: U64, signer: Address): Outcome<State, Fault> {
    if signer !in auth then Abort(Unauthorized)
    else if id !in s.proposals then Abort(ProposalNotFound)
    else
      var p := s.proposals[id];
      if signer !in p.signers then Abort(NotSigner)
      else if p.executed then Abort(AlreadyExecuted)
      else if signer in p.approvals then Abort(AlreadyApproved)
      else Commit(s.(proposals := s.proposals[id := p.(approvals := p.approvals + [signer])]))
  }

  predicate Ready(p: Proposal) {
    !p.executed && |p.approvals| >= p.threshold
  }

  function Execute(s: State, id: U64, expected: Action, expectedNonce: U64, actionFails: bool): Outcome<State, Fault> {
    if id !in s.proposals then Abort(ProposalNotFound)
    else
      var p := s.proposals[id];
      if p.executed then Abort(AlreadyExecuted)
      else if p.action != expected then Abort(ActionMismatch)
      else if !Ready(p) then Abort(ThresholdNotMet)
      else if expectedNonce != s.nonce then Abort(NonceMismatch)
      else if actionFails then Abort(ActionFailed)
      else if s.nonce == U64_MAX then Abort(Overflow)
      else Commit(s.(proposals := s.proposals[id := p.(executed := true, executedNonce := Some(s.nonce))],
                     nonce := s.nonce + 1,
                     effects := s.effects + [Effect(id, p.action)]))
  }

  /** The list without any occurrence of `x`, in the same order. */
  function Without(s: seq<Address>, x: Address): seq<Address> {
    if s == [] then []
    else Without(s[..|s| - 1], x) + if s[|s| - 1] != x then [s[|s| - 1]] else []
  }

  function RemoveSigner(s: State, auth: set<Address>, caller: Address, target: Address): Outcome<State, Fault> {
    match Govern(s, auth, caller)
    case Abort(e) => Abort(e)
    case Commit(config) =>
      if target !in config.signers then Abort(NotSigner)
      else if |config.signers| - 1 < config.threshold then Abort(RemovalWouldBreakThreshold)
      else Commit(s.(config := Some(config.(signers := Without(config.signers, target)))))
  }

  function AddSigner(s: State, auth: set<Address>, caller: Address, newSigner: Address): Outcome<State, Fault> {
    match Govern(s, auth, caller)
    case Abort(e) => Abort(e)
    case Commit(config) =>
      if newSigner in config.signers then Abort(AlreadySigner)
      else Commit(s.(config := Some(config.(signers := config.signers + [newSigner]))))
  }

  function RemoveAll(signers: seq<Address>, remove: seq<Address>): Outcome<seq<Address>, Fault>
    decreases |remove|
  {
    if remove == [] then Commit(signers)
    else if remove[0] !in signers then Abort(NotSigner)
    else RemoveAll(Without(signers, remove[0]), remove[1..])
  }

  function AddAll(signers: seq<Address>, add: seq<Address>): Outcome<seq<Address>, Fault>
    decreases |add|
  {
    if add == [] then Commit(signers)
    else if add[0] in signers then Abort(AlreadySigner)
    else AddAll(signers + [add[0]], add[1..])
  }

  function Rotated(config: Config, add: seq<Address>, remove: seq<Address>, newThreshold: Option<U32>)
    : Outcome<Config, Fault>
  {
    match RemoveAll(config.signers, remove)
    case Abort(e) => Abort(e)
    case Commit(kept) =>
      match AddAll(kept, add)
      case Abort(e) => Abort(e)
      case Commit(signers) =>
        var threshold := if newThreshold.Some? then newThreshold.value else config.threshold;
        if threshold == 0 || threshold > |signers| then Abort(RemovalWouldBreakThreshold)
        else Commit(Config(signers, threshold))
  }

  function RotateSigners(s: State, auth: set<Address>, caller: Address, add: seq<Address>, remove: seq<Address>,
                         newThreshold: Option<U32>): Outcome<State, Fault> {
    match Govern(s, auth, caller)
    case Abort(e) => Abort(e)
    case Commit(config) =>
      match Rotated(config, add, remove, newThreshold)
      case Abort(e) => Abort(e)
      case Commit(rotated) => Commit(s.(config := Some(rotated)))
  }
}
