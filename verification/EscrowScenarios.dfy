/** Runs from deployment that show where the escrow does less than one would expect. */
module EscrowScenarios {
  import opened Prelude
  import opened EscrowSpec
  import opened EscrowLoops
  import opened EscrowRuns
  import opened EscrowRefinement
  import opened EscrowAccess
  import opened EscrowOverdraft
  import opened EscrowDrain
  import opened EscrowDisputes
  import opened EscrowAlerts
  import opened EscrowRollback
  import B = CircuitBreaker
  import R = RateLimiter
  import P = RateLimiterPeak

  /** Everybody who takes part, and what the payer starts with. */
  datatype Cast = Cast(self: Address, key: Address, payer: Address, winner: Address, token: Address, funds: I128)

  predicate Distinctly(who: Cast) {
    who.self != who.payer && who.self != who.winner && who.funds > 0
  }

  function TxOf(signer: Address): Tx {
    Tx({signer}, 0, true)
  }

  /** The payer starts with the funds, and so does the key, as a later donor. */
  function Deployment(who: Cast): Ledger
    requires Distinctly(who)
  {
    Deployed(who.self, map[who.key := who.funds][who.payer := who.funds])
  }

  /** Deployment settings, the registration of a program, and the locking of all the payer's funds. */
  function Opening(who: Cast): seq<Call> {
    [Call(TxOf(who.key), DoReconfigure(DEFAULT_SETTINGS.(admin := Some(who.key)), {})),
     Call(TxOf(who.key), DoInitialize("p", who.key, who.token)),
     Call(TxOf(who.payer), DoLock(who.payer, who.funds))]
  }

  predicate Opened(who: Cast, l: Ledger) {
    && l.self == who.self
    && l.program == Some(Program("p", who.funds, who.funds, who.key, who.token, []))
    && l.schedules == [] && l.releases == [] && l.nextId == 1 && l.disputes == map[]
    && l.settings == DEFAULT_SETTINGS.(admin := Some(who.key))
    && l.breaker == B.Fresh(B.DEFAULT_CONFIG)
    && Balance(l.balances, who.self) == who.funds
    && (who.key != who.payer && who.key != who.self ==> Balance(l.balances, who.key) == who.funds)
  }

  lemma AfterOpening(who: Cast, rest: seq<Call>)
    requires Distinctly(who) && who.key != who.self
    ensures Opened(who, At(Deployment(who), Opening(who) + rest, 3))
  {
    var start, calls := Deployment(who), Opening(who) + rest;
    assert calls[0] == Opening(who)[0] && calls[1] == Opening(who)[1] && calls[2] == Opening(who)[2];
    assert At(start, calls, 0) == start;
    var l1, l2 := At(start, calls, 1), At(start, calls, 2);
    assert l1 == Next(start, calls[0]) && l2 == Next(l1, calls[1]);
    assert R.Check(l2.limits, {}, who.payer, 0, l2.settings.rate).Commit?;
    TransferCosts(l2.balances, who.payer, who.self, who.funds);
  }

  // ---------------------------------------------------------------------------------------------
  // Donated tokens let a release overdraw the program
  // ---------------------------------------------------------------------------------------------

  function DonationRun(who: Cast): seq<Call>
    requires who.funds > 0 && 2 * who.funds <= I128_MAX
  {
    Opening(who) + [
      Call(TxOf(who.key), DoOutsideTransfer(who.key, who.self, who.funds)),
      Call(TxOf(who.key), DoCreate(2 * who.funds, 0, who.winner)),
      Call(TxOf(who.key), DoRelease(1, Manual))]
  }

  /** Twice the amount is scheduled and held, half of it accounted for. */
  predicate Donated(who: Cast, l: Ledger)
    requires who.funds > 0 && 2 * who.funds <= I128_MAX
  {
    && l.self == who.self
    && l.program == Some(Program("p", who.funds, who.funds, who.key, who.token, []))
    && l.schedules == [Schedule(1, who.winner, 2 * who.funds, 0, false, None, None)]
    && l.disputes == map[] && l.settings == DEFAULT_SETTINGS.(admin := Some(who.key))
    && l.breaker == B.Fresh(B.DEFAULT_CONFIG)
    && Balance(l.balances, who.self) == 2 * who.funds
  }

  lemma AfterDonation(who: Cast)
    requires Distinctly(who) && who.key != who.self && who.key != who.payer && 2 * who.funds <= I128_MAX
    ensures Donated(who, At(Deployment(who), DonationRun(who), 5))
  {
    var start, calls := Deployment(who), DonationRun(who);
    AfterOpening(who, calls[3..]);
    assert calls == Opening(who) + calls[3..];
    var l3, l4, l5 := At(start, calls, 3), At(start, calls, 4), At(start, calls, 5);
    assert l4 == Next(l3, calls[3]) && l5 == Next(l4, calls[4]);
    TransferCosts(l3.balances, who.key, who.self, who.funds);
  }

  lemma DonatedIsOverdrawn(who: Cast, l: Ledger)
    requires who.funds > 0 && 2 * who.funds <= I128_MAX && Numbered(l) && Donated(who, l)
    ensures var c := Call(TxOf(who.key), DoRelease(1, Manual));
      Overdraws(l, c) && Next(l, c).program.Some? && Next(l, c).program.value.remaining == -who.funds
  {
    ReleaseOfNumbered(l, TxOf(who.key), 1, Manual);
  }

  /** Lock any amount, donate as much again, schedule twice the amount and release it by hand: the
      last call overdraws, and the remaining balance is minus the amount. */
  lemma RemainingCanGoNegative(who: Cast)
    requires Distinctly(who) && who.key != who.self && who.key != who.payer && 2 * who.funds <= I128_MAX
    ensures var l := At(Deployment(who), DonationRun(who), 6);
      && l.program.Some? && l.program.value.remaining == -who.funds
      && Overdraws(At(Deployment(who), DonationRun(who), 5), DonationRun(who)[5])
  {
    var start, calls := Deployment(who), DonationRun(who);
    AfterDonation(who);
    RunKeepsInv(start, calls, 5);
    DonatedIsOverdrawn(who, At(start, calls, 5));
    assert At(start, calls, 6) == Next(At(start, calls, 5), calls[5]);
  }

  // ---------------------------------------------------------------------------------------------
  // A scoped dispute can make a trigger call fail for everybody
  // ---------------------------------------------------------------------------------------------

  /** A hundred schedules of one unit, then a larger one. */
  function CrowdAmount(i: nat, last: I128): I128 {
    if i < MAX_BATCH_SIZE then 1 else last
  }

  function Creations(who: Cast, last: I128, n: nat): seq<Call> {
    seq(n, i requires 0 <= i < n => Call(TxOf(who.key), DoCreate(CrowdAmount(i, last), 0, who.winner)))
  }

  function CrowdRun(who: Cast, last: I128): seq<Call> {
    Opening(who) + Creations(who, last, MAX_BATCH_SIZE + 1) + [Call(TxOf(who.key), DoOpenDispute(OneSchedule(1)))]
  }

  /** The first `n` schedules of the crowd. */
  predicate Crowd(who: Cast, last: I128, schedules: seq<Schedule>, n: nat) {
    && |schedules| == n < U64_MAX
    && forall i :: 0 <= i < n ==> schedules[i] == Schedule(i + 1, who.winner, CrowdAmount(i, last), 0, false,
        None, None)
  }

  predicate Crowded(who: Cast, last: I128, l: Ledger, n: nat) {
    && l.program == Some(Program("p", who.funds, who.funds, who.key, who.token, []))
    && Crowd(who, last, l.schedules, n) && l.nextId == n + 1 && l.disputes == map[]
    && l.settings == DEFAULT_SETTINGS.(admin := Some(who.key)) && l.breaker == B.Fresh(B.DEFAULT_CONFIG)
  }

  lemma OneCreation(who: Cast, last: I128, l: Ledger, n: nat)
    requires last > 0 && n <= MAX_BATCH_SIZE && Crowded(who, last, l, n)
    ensures Crowded(who, last, Next(l, Call(TxOf(who.key), DoCreate(CrowdAmount(n, last), 0, who.winner))), n + 1)
  {
  }

  lemma {:induction false} AfterCreations(who: Cast, last: I128, n: nat)
    requires Distinctly(who) && who.key != who.self && last > 0 && n <= MAX_BATCH_SIZE + 1
    ensures Crowded(who, last, At(Deployment(who), CrowdRun(who, last), 3 + n), n)
  {
    var start, calls := Deployment(who), CrowdRun(who, last);
    if n == 0 {
      AfterOpening(who, calls[3..]);
      assert calls == Opening(who) + calls[3..];
    } else {
      AfterCreations(who, last, n - 1);
      OneCreation(who, last, At(start, calls, 3 + n - 1), n - 1);
      assert calls[3 + n - 1] == Creations(who, last, MAX_BATCH_SIZE + 1)[n - 1];
    }
  }

  /** The disputes that are open concern at most the first schedule: it alone if `skip` is one. */
  ghost predicate OnlyFirstDisputed(who: Cast, l: Ledger, skip: nat) {
    && skip <= 1 && !l.settings.whitelistEnforced && !IsOpen(l, Recipient(who.winner))
    && forall i: U64 :: IsOpen(l, OneSchedule(i)) <==> skip == 1 && i == 1
  }

  lemma CrowdMember(who: Cast, last: I128, l: Ledger, skip: nat, i: nat)
    requires Crowd(who, last, l.schedules, MAX_BATCH_SIZE + 1) && OnlyFirstDisputed(who, l, skip) && i < |l.schedules|
    ensures Eligible(l, 0, i) <==> i >= skip
    ensures l.schedules[i].amount == CrowdAmount(i, last)
  {
    assert l.schedules[i] == Schedule(i + 1, who.winner, CrowdAmount(i, last), 0, false, None, None);
  }

  /** What the first `k` schedules of the crowd are owed. */
  function CrowdDue(last: I128, skip: nat, k: nat): int {
    if k <= skip then 0 else if k <= MAX_BATCH_SIZE then k - skip else MAX_BATCH_SIZE - skip + last
  }

  lemma CrowdOneMore(who: Cast, last: I128, l: Ledger, skip: nat, i: nat)
    requires Crowd(who, last, l.schedules, MAX_BATCH_SIZE + 1) && OnlyFirstDisputed(who, l, skip) && i < |l.schedules|
    ensures |EligibleBelow(l, 0, i + 1)| == |EligibleBelow(l, 0, i)| + if i >= skip then 1 else 0
    ensures Due(l, EligibleBelow(l, 0, i + 1))
         == Due(l, EligibleBelow(l, 0, i)) + if i >= skip then CrowdAmount(i, last) else 0
  {
    CrowdMember(who, last, l, skip, i);
    DueOfNext(l, 0, i);
  }

  /** How many of the first `k` schedules are eligible, and what they are owed. */
  predicate CrowdSplit(last: I128, l: Ledger, skip: nat, k: nat)
    requires k <= |l.schedules|
  {
    && |EligibleBelow(l, 0, k)| == (if k <= skip then 0 else k - skip)
    && Due(l, EligibleBelow(l, 0, k)) == CrowdDue(last, skip, k)
  }

  lemma CrowdNext(who: Cast, last: I128, l: Ledger, skip: nat, k: nat)
    requires Crowd(who, last, l.schedules, MAX_BATCH_SIZE + 1) && OnlyFirstDisputed(who, l, skip)
    requires k < |l.schedules| && CrowdSplit(last, l, skip, k)
    ensures CrowdSplit(last, l, skip, k + 1)
  {
    CrowdOneMore(who, last, l, skip, k);
    assert CrowdDue(last, skip, k + 1) == CrowdDue(last, skip, k) + if k >= skip then CrowdAmount(k, last) else 0;
  }

  lemma CrowdStart(last: I128, l: Ledger, skip: nat)
    ensures CrowdSplit(last, l, skip, 0)
  {
  }

  lemma {:induction false} CrowdEligible(who: Cast, last: I128, l: Ledger, skip: nat, k: nat)
    requires Crowd(who, last, l.schedules, MAX_BATCH_SIZE + 1) && OnlyFirstDisputed(who, l, skip) && k <= |l.schedules|
    ensures CrowdSplit(last, l, skip, k)
  {
    if k == 0 {
      CrowdStart(last, l, skip);
    } else {
      CrowdEligible(who, last, l, skip, k - 1);
      CrowdNext(who, last, l, skip, k - 1);
    }
  }

  /** Whoever the participants are: after locking a hundred for a hundred schedules of one unit and
      one later, larger schedule, a trigger call releases the hundred. Dispute the first of them, and
      the call fails, because the larger one is drawn into the selection; so the other ninety-nine
      are not released either. */
  lemma DisputeCanStopTheRest(who: Cast, last: I128)
    requires Distinctly(who) && who.key != who.self && who.funds == MAX_BATCH_SIZE && last > 1
    ensures var l := At(Deployment(who), CrowdRun(who, last), MAX_BATCH_SIZE + 4);
      var d := At(Deployment(who), CrowdRun(who, last), MAX_BATCH_SIZE + 5);
      && d == WithDispute(l, OneSchedule(1), DisputeRecord(who.key, 0, DisputeOpen, None, None))
      && Inv(l) && ReleasesOpen(l, TxOf(who.key))
      && Trigger(l, TxOf(who.key)).Commit? && |Selected(l, 0)| == MAX_BATCH_SIZE
      && Trigger(d, TxOf(who.key)).Abort?
  {
    var start, calls, n := Deployment(who), CrowdRun(who, last), MAX_BATCH_SIZE + 1;
    var l, d := At(start, calls, n + 3), At(start, calls, n + 4);
    AfterCreations(who, last, n);
    RunKeepsInv(start, calls, n + 3);
    RunKeepsInv(start, calls, n + 4);
    DisputeOpens(who, last, l);
    assert d == Next(l, calls[n + 3]);
    CrowdFits(who, last, l);
    CrowdDoesNotFit(who, last, d);
    TriggerReleasesSelection(l, TxOf(who.key));
    TriggerReleasesSelection(d, TxOf(who.key));
  }

  lemma DisputeOpens(who: Cast, last: I128, l: Ledger)
    requires Crowded(who, last, l, MAX_BATCH_SIZE + 1)
    ensures Next(l, Call(TxOf(who.key), DoOpenDispute(OneSchedule(1))))
         == WithDispute(l, OneSchedule(1), DisputeRecord(who.key, 0, DisputeOpen, None, None))
  {
    assert l.schedules[0].id == 1;
  }

  lemma CrowdFits(who: Cast, last: I128, l: Ledger)
    requires Crowded(who, last, l, MAX_BATCH_SIZE + 1) && who.funds == MAX_BATCH_SIZE
    ensures |Selected(l, 0)| == MAX_BATCH_SIZE && DueFits(l, Selected(l, 0))
  {
    CrowdEligible(who, last, l, 0, MAX_BATCH_SIZE);
    CrowdEligible(who, last, l, 0, MAX_BATCH_SIZE + 1);
    SelectedStartsWith(l, 0, MAX_BATCH_SIZE);
  }

  lemma CrowdDoesNotFit(who: Cast, last: I128, d: Ledger)
    requires Crowd(who, last, d.schedules, MAX_BATCH_SIZE + 1) && who.funds == MAX_BATCH_SIZE && last > 1
    requires d.program.Some? && d.program.value.remaining == who.funds && OnlyFirstDisputed(who, d, 1)
    ensures !DueFits(d, Selected(d, 0))
  {
    CrowdEligible(who, last, d, 1, MAX_BATCH_SIZE + 1);
    assert Selected(d, 0) == AllEligible(d, 0);
  }

  // ---------------------------------------------------------------------------------------------
  // More than ten alerts
  // ---------------------------------------------------------------------------------------------

  /** Eleven payouts of the threshold in one batch. */
  function ElevenRun(who: Cast): seq<Call>
    requires who.funds > 0
  {
    Opening(who) + [Call(TxOf(who.key), DoBatch(seq(11, _ => who.winner), seq(11, _ => Threshold(who.funds))))]
  }

  /** Locking a total that fails the test, such as nineteen, and paying eleven times its threshold
      in one batch is a run that raises eleven alerts. */
  lemma ElevenAlertsHappen(who: Cast)
    requires Distinctly(who) && who.key != who.self && !Bounded(who.funds)
    ensures var l := At(Deployment(who), ElevenRun(who), 3);
      && Step(l, ElevenRun(who)[3]).Commit?
      && l.program.Some? && l.program.value.totalFunds == who.funds
      && Alerts(ElevenRun(who)[3].op.amounts, Threshold(who.funds), 11) == 11
    ensures !Bounded(19)
  {
    var start, calls := Deployment(who), ElevenRun(who);
    assert calls == Opening(who) + calls[3..];
    AfterOpening(who, calls[3..]);
    RunKeepsInv(start, calls, 3);
    ElevenAlerts(At(start, calls, 3), TxOf(who.key), who.winner);
  }

  // ---------------------------------------------------------------------------------------------
  // Without the rollback, not every shortage would be counted
  // ---------------------------------------------------------------------------------------------

  /** A first schedule that more than half of the funds pay for, and a second that they do not. */
  predicate Uneven(who: Cast, small: I128, large: I128) {
    0 < small <= who.funds < 2 * small && who.funds - small < large
  }

  function UnevenRun(who: Cast, small: I128, large: I128): seq<Call> {
    Opening(who) + [
      Call(TxOf(who.key), DoCreate(small, 0, who.winner)),
      Call(TxOf(who.key), DoCreate(large, 0, who.winner))]
  }

  predicate TwoDue(who: Cast, small: I128, large: I128, l: Ledger) {
    && l.self == who.self
    && l.program == Some(Program("p", who.funds, who.funds, who.key, who.token, []))
    && l.schedules == [Schedule(1, who.winner, small, 0, false, None, None),
                       Schedule(2, who.winner, large, 0, false, None, None)]
    && l.disputes == map[] && l.settings == DEFAULT_SETTINGS.(admin := Some(who.key))
    && l.breaker == B.Fresh(B.DEFAULT_CONFIG)
    && Balance(l.balances, who.self) == who.funds
  }

  lemma AfterUneven(who: Cast, small: I128, large: I128)
    requires Distinctly(who) && who.key != who.self && Uneven(who, small, large)
    ensures TwoDue(who, small, large, At(Deployment(who), UnevenRun(who, small, large), 5))
  {
    var start, calls := Deployment(who), UnevenRun(who, small, large);
    AfterOpening(who, calls[3..]);
    assert calls == Opening(who) + calls[3..];
    var l3, l4, l5 := At(start, calls, 3), At(start, calls, 4), At(start, calls, 5);
    assert l4 == Next(l3, calls[3]) && l5 == Next(l4, calls[4]);
  }

  lemma BothSelected(who: Cast, small: I128, large: I128, l: Ledger)
    requires TwoDue(who, small, large, l)
    ensures Selected(l, 0) == [0, 1]
  {
    assert EligibleBelow(l, 0, 0) == [] && EligibleBelow(l, 0, 1) == [0] && EligibleBelow(l, 0, 2) == [0, 1];
  }

  /** Paying for the first schedule and falling short on the second. */
  lemma PaysOnlyFirst(who: Cast, small: I128, large: I128, l: Ledger)
    requires Distinctly(who) && Uneven(who, small, large) && TwoDue(who, small, large, l)
    ensures Trigger(l, TxOf(who.key)) == Abort(InsufficientBalance)
    ensures PaidRow(l, Selected(l, 0), 0) == [0] && TriggerEach(l, [0], 0).Commit?
    ensures Moved(l.balances, TriggerEach(l, [0], 0).state.balances, who.self, who.winner, small)
  {
    BothSelected(who, small, large, l);
    assert TriggerEach(l, [], 0) == Commit(l);
    assert [0][..0] == [] && [0, 1][..1] == [0];
    TransferCosts(l.balances, who.self, who.winner, small);
    assert TriggerEach(l, [0], 0) == TriggerAt(l, 0, 0);
    assert TriggerEach(l, [0, 1], 0) == TriggerAt(TriggerEach(l, [0], 0).state, 1, 0);
  }

  /** With the first amount gone the tokens do not pay for it again. */
  lemma SecondTransferFails(who: Cast, small: I128, large: I128, l: Ledger, u: Ledger)
    requires Distinctly(who) && Uneven(who, small, large) && TwoDue(who, small, large, l) && SameBooks(l, u)
    requires Balance(u.balances, who.self) == who.funds - small && B.Allows(u.breaker)
    ensures Trigger(u, TxOf(who.key)) == Abort(TransferFailed) && PaidRow(u, Selected(u, 0), 0) == []
  {
    BothSelected(who, small, large, l);
    SelectedIgnoresTokens(l, u, 0);
    assert TriggerEach(u, [], 0) == Commit(u);
    assert [0][..0] == [] && [0, 1][..1] == [0];
    assert TriggerEach(u, [0], 0) == TriggerAt(u, 0, 0) == Abort(TransferFailed);
    assert TriggerEach(u, [0, 1], 0) == Abort(TransferFailed);
    assert PaidRow(u, [0, 1], 0) == PaidRow(u, [0], 0) == PaidRow(u, [], 0);
  }

  /** Two trigger calls on such a ledger, for instance after locking fifteen for schedules of ten and
      a hundred: both are short. Without the rollback the first pays the small schedule and is
      counted, the second fails to pay it again, and is not counted. */
  lemma SecondShortageIsNotCounted(who: Cast, small: I128, large: I128)
    requires Distinctly(who) && who.key != who.self && Uneven(who, small, large)
    ensures var l, c := At(Deployment(who), UnevenRun(who, small, large), 5), Call(TxOf(who.key), DoTrigger);
      && l.program.Some? && Inv(l) && l.breaker.state == B.Closed && AllShort(l, [c, c])
      && var u := StoppedTrigger(l, InsufficientBalance, 0);
      && UnrolledRun([l, u, u], [c, c])
      && Moved(l.balances, u.balances, who.self, who.winner, small)
      && u.breaker.failures == 1 && Step(u, c) == Abort(TransferFailed)
    ensures who.funds == 15 ==> Uneven(who, 10, 100)
  {
    var start, calls, c := Deployment(who), UnevenRun(who, small, large), Call(TxOf(who.key), DoTrigger);
    AfterUneven(who, small, large);
    RunKeepsInv(start, calls, 5);
    var l := At(start, calls, 5);
    PaysOnlyFirst(who, small, large, l);
    StoppedTwice(who, small, large, l);
  }

  lemma StoppedTwice(who: Cast, small: I128, large: I128, l: Ledger)
    requires Distinctly(who) && Uneven(who, small, large) && TwoDue(who, small, large, l)
    requires Trigger(l, TxOf(who.key)) == Abort(InsufficientBalance)
    requires PaidRow(l, Selected(l, 0), 0) == [0] && TriggerEach(l, [0], 0).Commit?
    requires Moved(l.balances, TriggerEach(l, [0], 0).state.balances, who.self, who.winner, small)
    ensures var c, u := Call(TxOf(who.key), DoTrigger), StoppedTrigger(l, InsufficientBalance, 0);
      && UnrolledRun([l, u, u], [c, c]) && u.breaker.failures == 1 && Step(u, c) == Abort(TransferFailed)
  {
    var c, u := Call(TxOf(who.key), DoTrigger), StoppedTrigger(l, InsufficientBalance, 0);
    SecondTransferFails(who, small, large, l, u);
    assert TriggerEach(u, [], 0) == Commit(u);
    assert Leaves(l, c, u) && Leaves(u, c, u);
  }

  // ---------------------------------------------------------------------------------------------
  // The alert threshold stops only single payouts
  // ---------------------------------------------------------------------------------------------

  /** Lock a total whose alert threshold does not fit 128 bits: any amount of it can be paid in a
      batch of one, and none in a single payout. */
  lemma AlertStopsOnlySingles(who: Cast, amount: I128)
    requires Distinctly(who) && who.key != who.self && 0 < amount <= who.funds
    requires who.funds * 1000 > I128_MAX
    ensures var l := At(Deployment(who), Opening(who), 3);
      && BatchPayout(l, TxOf(who.key), [who.winner], [amount]).Commit?
      && SinglePayout(l, TxOf(who.key), who.winner, amount) == Abort(Overflow)
  {
    assert Opening(who) == Opening(who) + [];
    AfterOpening(who, []);
    RunKeepsInv(Deployment(who), Opening(who), 3);
    var l := At(Deployment(who), Opening(who), 3);
    assert Sum([amount], 0) == 0 && Sum([amount], 1) == amount;
    FundedBatch(l, TxOf(who.key), [who.winner], [amount]);
    TransferCosts(l.balances, who.self, who.winner, amount);
  }

  // ---------------------------------------------------------------------------------------------
  // The configuration of a fresh deployment
  // ---------------------------------------------------------------------------------------------

  /** Main result: as deployed, the limiter means ten locks an hour, a minute apart, but can let one
      address through nineteen times within an hour, and no more. */
  lemma DeployedLimitAllowsNineteen(who: Address)
    ensures var cfg := DEFAULT_SETTINGS.rate;
      && cfg.window == 3600 && cfg.maxOps == 10 && cfg.cooldown == 60
      && P.Reached(cfg, who, 19) && !P.Reached(cfg, who, 20)
  {
    P.PeakIsExact(DEFAULT_SETTINGS.rate, who, 19);
    P.PeakIsExact(DEFAULT_SETTINGS.rate, who, 20);
  }

  /** Main result: as deployed, the circuit opens at the third failure in a row, one success closes it
      again, and ten failures are remembered. */
  lemma DeployedBreakerOpensAtThree(es: seq<B.Event>, failed: B.Event, b: B.Breaker)
    requires failed.Failed? && B.Run(B.Fresh(B.DEFAULT_CONFIG), es).state == B.Closed && b.cfg == B.DEFAULT_CONFIG
    ensures B.Run(B.Fresh(B.DEFAULT_CONFIG), es + [failed]).state == B.Open <==> B.Streak(es + [failed]) == 3
    ensures B.OnSuccess(B.HalfOpened(b)) == B.ClosedAgain(b)
    ensures |B.Run(B.Fresh(B.DEFAULT_CONFIG), es).log| <= 10
  {
    B.OpensExactlyAtThreshold(B.DEFAULT_CONFIG, es, failed);
    B.RecoversAfterSuccesses(b, 1);
    B.LogIsNewestEntries(B.DEFAULT_CONFIG, es);
    assert B.Successes(B.HalfOpened(b), 0) == B.HalfOpened(b);
  }
}
