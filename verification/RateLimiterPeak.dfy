/** Exactly how many operations of one address an interval of window length can hold. */
module RateLimiterPeak {
  import opened Prelude
  import opened RateLimiter

  /** A run in which the limiter watches `who`, as the ledger can produce it. */
  predicate Legal(tries: seq<Attempt>, exempt: set<Address>, who: Address) {
    who !in exempt && Chronological(tries) && BeforeLastTimestamp(tries)
  }

  /** How often a run lets `who` through within one window length from `a`. */
  function Burst(tries: seq<Attempt>, exempt: set<Address>, cfg: Config, who: Address, a: int): nat {
    CountIn(Accepted(tries, exempt, cfg, who), a, a + cfg.window)
  }

  /** Some run lets `who` through `n` times within one window length. */
  ghost predicate Reached(cfg: Config, who: Address, n: nat) {
    exists tries, exempt, a: int :: Legal(tries, exempt, who) && Burst(tries, exempt, cfg, who, a) >= n
  }

  /** Operations beyond one full window need a second window: their cooldowns must fit in one window
      length, and the clock must last until the second window has taken its share. */
  predicate Feasible(cfg: Config, n: nat) {
    || n <= cfg.maxOps
    || (&& n <= 2 * cfg.maxOps - 1
        && cfg.window > Max(1, (n - 1) * cfg.cooldown)
        && cfg.window + (n - cfg.maxOps) * cfg.cooldown < U64_MAX)
  }

  // ---------------------------------------------------------------------------------------------
  // No run holds more
  // ---------------------------------------------------------------------------------------------

  /** The open window is younger than everything before it and a window younger than the first one. */
  predicate OpenedLater(st: State, acc: seq<U64>, cfg: Config)
    requires 1 <= st.count <= |acc|
  {
    var opening := |acc| - st.count;
    && acc[|acc| - 1] < acc[opening] + cfg.window
    && (opening > 0 ==> acc[opening - 1] < acc[opening] && acc[0] + cfg.window <= acc[opening])
  }

  lemma AcceptKeepsOpening(st: State, acc: seq<U64>, now: U64, cfg: Config)
    requires cfg.window > 0 && acc != [] && Tracks(st, acc, cfg) && Sorted(acc) && OpenedLater(st, acc, cfg)
    requires st.last <= now < U64_MAX && Admit(st, now, cfg).Commit?
    ensures OpenedLater(Admit(st, now, cfg).state, acc + [now], cfg)
  {
    assert acc[0] <= acc[|acc| - st.count];
  }

  /** From a positive time on, cooldowns add up. */
  lemma {:induction false} CooldownsAddUp(acc: seq<U64>, cooldown: nat, i: nat, k: nat)
    requires Sorted(acc) && Cooled(acc, cooldown) && i <= k < |acc| && acc[i] > 0
    ensures acc[i] + (k - i) * cooldown <= acc[k]
    decreases k
  {
    if i == k {
    } else {
      CooldownsAddUp(acc, cooldown, i, k - 1);
      assert (k - i) * cooldown == (k - 1 - i) * cooldown + cooldown;
      assert acc[i] <= acc[k - 1];
    }
  }

  /** The latest operation and the one `j` places before it are a window apart. */
  lemma LatestIsFarFromEarlier(st: State, acc: seq<U64>, cfg: Config, j: nat)
    requires cfg.window > 0 && j < |acc| && Tracks(st, acc, cfg) && OpenedLater(st, acc, cfg)
    requires Sorted(acc) && Cooled(acc, cfg.cooldown) && acc[|acc| - 1] < U64_MAX
    requires !Feasible(cfg, j + 1)
    ensures acc[|acc| - 1 - j] + cfg.window <= acc[|acc| - 1]
  {
    var n, opening := |acc| - 1, |acc| - st.count;
    var i := n - j;
    assert i < opening && acc[i] <= acc[opening - 1] && acc[opening] <= acc[n];
    if i + cfg.maxOps <= opening {
      assert acc[i] <= acc[opening - cfg.maxOps];
    } else if cfg.window <= 1 {
    } else if cfg.window <= j * cfg.cooldown {
      if acc[i] > 0 {
        CooldownsAddUp(acc, cfg.cooldown, i, n);
      } else {
        assert acc[0] <= acc[i];
      }
    } else {
      CooldownsAddUp(acc, cfg.cooldown, opening, n);
      MoreCooldowns(j + 1 - cfg.maxOps, n - opening, cfg.cooldown);
      assert false;
    }
  }

  lemma MoreCooldowns(a: int, b: int, cooldown: nat)
    requires a <= b
    ensures a * cooldown <= b * cooldown
  {
  }

  /** What a run leaves behind for an address: the limiter's record and the spacing it enforces. */
  predicate Paced(states: States, who: Address, acc: seq<U64>, cfg: Config, j: nat) {
    && Disciplined(states, who, acc, cfg)
    && (acc != [] ==> OpenedLater(states[who], acc, cfg))
    && Spaced(acc, j, cfg.window)
  }

  lemma AcceptOpensLater(states: States, who: Address, acc: seq<U64>, now: U64, cfg: Config)
    requires Disciplined(states, who, acc, cfg) && (acc != [] ==> OpenedLater(states[who], acc, cfg))
    requires cfg.window > 0 && now < U64_MAX && (acc != [] ==> acc[|acc| - 1] <= now)
    requires Admit(Record(states, who, now), now, cfg).Commit?
    ensures var st := Admit(Record(states, who, now), now, cfg).state;
      1 <= st.count <= |acc| + 1 && OpenedLater(st, acc + [now], cfg)
  {
    if acc == [] {
      FirstIsTracked(now, cfg);
    } else {
      AcceptKeepsTrack(states[who], acc, now, cfg);
      AcceptKeepsOpening(states[who], acc, now, cfg);
    }
  }

  lemma SpacedAppend(acc: seq<U64>, now: U64, j: nat, gap: int)
    requires Spaced(acc, j, gap)
    requires j <= |acc| ==> (acc + [now])[|acc| - j] + gap <= now
    ensures Spaced(acc + [now], j, gap)
  {
  }

  lemma AcceptKeepsPace(states: States, who: Address, acc: seq<U64>, now: U64, cfg: Config, j: nat)
    requires Paced(states, who, acc, cfg, j) && cfg.window > 0 && now < U64_MAX && !Feasible(cfg, j + 1)
    requires acc != [] ==> acc[|acc| - 1] <= now
    requires Admit(Record(states, who, now), now, cfg).Commit?
    ensures Paced(states[who := Admit(Record(states, who, now), now, cfg).state], who, acc + [now], cfg, j)
  {
    var states' := states[who := Admit(Record(states, who, now), now, cfg).state];
    var acc' := acc + [now];
    AcceptKeepsDiscipline(states, who, acc, now, cfg);
    AcceptOpensLater(states, who, acc, now, cfg);
    PaceFromDiscipline(states', who, acc', cfg, j);
    SpacedAppend(acc, now, j, cfg.window);
  }

  lemma PaceFromDiscipline(states: States, who: Address, acc: seq<U64>, cfg: Config, j: nat)
    requires Disciplined(states, who, acc, cfg) && acc != [] && OpenedLater(states[who], acc, cfg)
    requires cfg.window > 0 && acc[|acc| - 1] < U64_MAX && !Feasible(cfg, j + 1)
    ensures j < |acc| ==> acc[|acc| - 1 - j] + cfg.window <= acc[|acc| - 1]
  {
    if j < |acc| {
      LatestIsFarFromEarlier(states[who], acc, cfg, j);
    }
  }

  lemma OthersKeepPace(states: States, states': States, who: Address, acc: seq<U64>, cfg: Config, j: nat)
    requires Paced(states, who, acc, cfg, j)
    requires (who in states' <==> who in states) && (who in states ==> states'[who] == states[who])
    ensures Paced(states', who, acc, cfg, j)
  {
  }

  lemma {:induction false} RunKeepsPace(tries: seq<Attempt>, exempt: set<Address>, cfg: Config, who: Address, j: nat)
    requires cfg.window > 0 && Legal(tries, exempt, who) && !Feasible(cfg, j + 1)
    ensures Paced(After(tries, exempt, cfg), who, Accepted(tries, exempt, cfg, who), cfg, j)
  {
    if tries == [] {
    } else {
      var before, t := tries[..|tries| - 1], tries[|tries| - 1];
      var states, acc := After(before, exempt, cfg), Accepted(before, exempt, cfg, who);
      RunKeepsPace(before, exempt, cfg, who, j);
      RunKeepsDiscipline(before, exempt, cfg, who);
      if t.who == who && Check(states, exempt, who, t.now, cfg).Commit? {
        AcceptKeepsPace(states, who, acc, t.now, cfg, j);
      } else {
        OthersDoNotMatter(states, exempt, cfg, t, who);
        OthersKeepPace(states, After(tries, exempt, cfg), who, acc, cfg, j);
      }
    }
  }

  lemma PaceBoundsCount(tries: seq<Attempt>, exempt: set<Address>, cfg: Config, who: Address, a: int, j: nat)
    requires cfg.window > 0 && Legal(tries, exempt, who) && !Feasible(cfg, j + 1)
    ensures Burst(tries, exempt, cfg, who, a) <= j
  {
    RunKeepsPace(tries, exempt, cfg, who, j);
    SpacingBoundsCount(Accepted(tries, exempt, cfg, who), j, cfg.window, a);
  }

  // ---------------------------------------------------------------------------------------------
  // Some run holds as many
  // ---------------------------------------------------------------------------------------------

  function AttemptsAt(who: Address, times: seq<U64>): (tries: seq<Attempt>)
    ensures |tries| == |times|
  {
    seq(|times|, i requires 0 <= i < |times| => Attempt(who, times[i]))
  }

  /** Times that fill the window opened at zero, then open a second one the moment it ends. */
  predicate Plan(cfg: Config, times: seq<U64>) {
    && 0 < cfg.maxOps && 0 < |times| <= 2 * cfg.maxOps && times[0] == 0
    && (forall i :: 0 <= i < |times| ==> times[i] < U64_MAX)
    && (forall i :: 0 < i < |times| && times[i - 1] > 0 ==> times[i - 1] + cfg.cooldown <= times[i])
    && (forall i :: 0 <= i < cfg.maxOps && i < |times| ==> times[i] < cfg.window)
    && (cfg.maxOps < |times| ==> times[cfg.maxOps] == cfg.window)
    && (forall i :: cfg.maxOps <= i < |times| ==> times[i] < 2 * cfg.window)
  }

  /** The record after the first `k` operations of a plan. */
  function PlannedRecord(cfg: Config, times: seq<U64>, k: nat): State
    requires Plan(cfg, times) && 0 < k <= |times|
  {
    if k <= cfg.maxOps then State(times[k - 1], 0, k) else State(times[k - 1], cfg.window, k - cfg.maxOps)
  }

  lemma PlannedStep(cfg: Config, times: seq<U64>, k: nat)
    requires Plan(cfg, times) && 0 < k < |times|
    ensures Admit(PlannedRecord(cfg, times, k), times[k], cfg) == Commit(PlannedRecord(cfg, times, k + 1))
  {
  }

  /** What one more attempt of `who` adds to a run. */
  lemma OneMoreAttempt(tries: seq<Attempt>, cfg: Config, who: Address, now: U64)
    ensures var all, before := tries + [Attempt(who, now)], After(tries, {}, cfg);
      match Admit(Record(before, who, now), now, cfg)
      case Commit(st) =>
        && Accepted(all, {}, cfg, who) == Accepted(tries, {}, cfg, who) + [now]
        && After(all, {}, cfg) == before[who := st]
      case Abort(_) =>
        && Accepted(all, {}, cfg, who) == Accepted(tries, {}, cfg, who)
        && After(all, {}, cfg) == before
  {
    assert (tries + [Attempt(who, now)])[..|tries|] == tries;
  }

  /** The records after the first `k` operations of a plan. */
  function PlannedRecords(cfg: Config, times: seq<U64>, who: Address, k: nat): States
    requires Plan(cfg, times) && k <= |times|
  {
    if k == 0 then map[] else map[who := PlannedRecord(cfg, times, k)]
  }

  lemma PlannedAdmission(cfg: Config, times: seq<U64>, who: Address, k: nat)
    requires Plan(cfg, times) && k < |times|
    ensures var r := Admit(Record(PlannedRecords(cfg, times, who, k), who, times[k]), times[k], cfg);
      r.Commit? && PlannedRecords(cfg, times, who, k)[who := r.state] == PlannedRecords(cfg, times, who, k + 1)
  {
    if k > 0 {
      PlannedStep(cfg, times, k);
    }
  }

  lemma AttemptsOneMore(who: Address, times: seq<U64>, k: nat)
    requires 0 < k <= |times|
    ensures AttemptsAt(who, times[..k]) == AttemptsAt(who, times[..k - 1]) + [Attempt(who, times[k - 1])]
  {
  }

  lemma PlanOneMore(cfg: Config, times: seq<U64>, who: Address, k: nat, tries: seq<Attempt>)
    requires Plan(cfg, times) && 0 < k <= |times|
    requires Accepted(tries, {}, cfg, who) == times[..k - 1]
    requires After(tries, {}, cfg) == PlannedRecords(cfg, times, who, k - 1)
    ensures var all := tries + [Attempt(who, times[k - 1])];
      Accepted(all, {}, cfg, who) == times[..k] && After(all, {}, cfg) == PlannedRecords(cfg, times, who, k)
  {
    PlannedAdmission(cfg, times, who, k - 1);
    OneMoreAttempt(tries, cfg, who, times[k - 1]);
    assert times[..k] == times[..k - 1] + [times[k - 1]];
  }

  lemma {:induction false} PlanIsAccepted(cfg: Config, times: seq<U64>, who: Address, k: nat)
    requires Plan(cfg, times) && k <= |times|
    ensures Accepted(AttemptsAt(who, times[..k]), {}, cfg, who) == times[..k]
    ensures After(AttemptsAt(who, times[..k]), {}, cfg) == PlannedRecords(cfg, times, who, k)
  {
    if k == 0 {
    } else {
      PlanIsAccepted(cfg, times, who, k - 1);
      PlanOneMore(cfg, times, who, k, AttemptsAt(who, times[..k - 1]));
      AttemptsOneMore(who, times, k);
    }
  }

  lemma PlanIsLegal(cfg: Config, times: seq<U64>, who: Address)
    requires Plan(cfg, times) && Sorted(times)
    ensures Legal(AttemptsAt(who, times), {}, who)
  {
  }

  lemma PlannedRun(cfg: Config, times: seq<U64>, who: Address) returns (tries: seq<Attempt>)
    requires Plan(cfg, times) && Sorted(times)
    ensures Legal(tries, {}, who) && Accepted(tries, {}, cfg, who) == times
  {
    assert times[..|times|] == times;
    tries := AttemptsAt(who, times);
    PlanIsAccepted(cfg, times, who, |times|);
    PlanIsLegal(cfg, times, who);
  }

  lemma SuffixIsCounted(times: seq<U64>, from: nat, a: int, b: int)
    requires from < |times| && Sorted(times) && a <= times[from] && times[|times| - 1] < b
    ensures CountIn(times, a, b) >= |times| - from
  {
    CountInHasSuffix(times, from, a, b);
  }

  lemma LegalRunReaches(tries: seq<Attempt>, times: seq<U64>, cfg: Config, who: Address, n: nat, a: int)
    requires Legal(tries, {}, who) && Accepted(tries, {}, cfg, who) == times && CountIn(times, a, a + cfg.window) >= n
    ensures Reached(cfg, who, n)
  {
    assert Burst(tries, {}, cfg, who, a) >= n;
  }

  lemma PlanReaches(cfg: Config, times: seq<U64>, who: Address, from: nat)
    requires Plan(cfg, times) && Sorted(times) && from < |times|
    requires times[|times| - 1] < times[from] + cfg.window
    ensures Reached(cfg, who, |times| - from)
  {
    SuffixIsCounted(times, from, times[from], times[from] + cfg.window);
    var tries := PlannedRun(cfg, times, who);
    LegalRunReaches(tries, times, cfg, who, |times| - from, times[from]);
  }

  /** The i-th time of the plan that puts all but its first operation into one window length. */
  function PlanTime(cfg: Config, i: nat): int {
    if i == 0 then 0
    else if i < cfg.maxOps then cfg.window - Max(1, cfg.cooldown) - (cfg.maxOps - 1 - i) * cfg.cooldown
    else cfg.window + (i - cfg.maxOps) * cfg.cooldown
  }

  lemma PlanTimesFit(cfg: Config, n: nat, i: nat)
    requires cfg.maxOps < n && Feasible(cfg, n) && i <= n
    ensures FitsPlan(cfg, i)
  {
    var m, c, w := cfg.maxOps, cfg.cooldown, cfg.window;
    assert n >= 3 && m >= 2;
    MoreCooldowns(m, n - 1, c);
    assert m * c == (m - 2) * c + 2 * c;
    assert (n - 1) * c == (n - m) * c + (m - 2) * c + c;
    if i == 0 {
    } else if i < m {
      MoreCooldowns(m - 1 - i, m - 2, c);
      assert (m - 1 - (i - 1)) * c == (m - 1 - i) * c + c;
      MoreCooldowns(0, m - 1 - i, c);
    } else {
      MoreCooldowns(i - m, n - m, c);
      MoreCooldowns(0, i - m, c);
      if i > m {
        assert (i - m) * c == (i - 1 - m) * c + c;
      }
    }
  }

  lemma {:induction false} StepwiseSorted(times: seq<U64>, i: nat, k: nat)
    requires forall m :: 0 < m < |times| ==> times[m - 1] <= times[m]
    requires i <= k < |times|
    ensures times[i] <= times[k]
    decreases k
  {
    if i == k {
    } else {
      StepwiseSorted(times, i, k - 1);
    }
  }

  /** The i-th of the planned times is where it should be. */
  predicate FitsPlan(cfg: Config, i: nat) {
    && 0 <= PlanTime(cfg, i) < U64_MAX
    && (0 < i ==> 0 < PlanTime(cfg, i))
    && (i < cfg.maxOps ==> PlanTime(cfg, i) < cfg.window)
    && PlanTime(cfg, i) < PlanTime(cfg, 1) + cfg.window
    && (1 < i ==> PlanTime(cfg, i - 1) + cfg.cooldown <= PlanTime(cfg, i))
    && (0 < i ==> PlanTime(cfg, i - 1) <= PlanTime(cfg, i))
  }

  lemma PlannedTimes(cfg: Config, n: nat) returns (times: seq<U64>)
    requires cfg.maxOps < n && Feasible(cfg, n)
    ensures |times| == n + 1 && forall i :: 0 <= i <= n ==> times[i] == PlanTime(cfg, i) && FitsPlan(cfg, i)
  {
    forall i: nat | i <= n
      ensures FitsPlan(cfg, i)
    {
      PlanTimesFit(cfg, n, i);
    }
    times := seq(n + 1, i requires 0 <= i <= n && FitsPlan(cfg, i) => PlanTime(cfg, i));
  }

  lemma PlannedTimesArePlan(cfg: Config, n: nat, times: seq<U64>)
    requires cfg.maxOps < n && Feasible(cfg, n)
    requires |times| == n + 1 && forall i :: 0 <= i <= n ==> times[i] == PlanTime(cfg, i) && FitsPlan(cfg, i)
    ensures Plan(cfg, times)
  {
    assert times[1] == PlanTime(cfg, 1) && FitsPlan(cfg, 1);
  }

  lemma PlannedTimesAreSorted(cfg: Config, n: nat, times: seq<U64>)
    requires |times| == n + 1 && forall i :: 0 <= i <= n ==> times[i] == PlanTime(cfg, i) && FitsPlan(cfg, i)
    ensures Sorted(times)
  {
    forall i, k | 0 <= i < k < |times|
      ensures times[i] <= times[k]
    {
      StepwiseSorted(times, i, k);
    }
  }

  lemma TwoWindowsReach(cfg: Config, who: Address, n: nat)
    requires cfg.maxOps < n && Feasible(cfg, n)
    ensures Reached(cfg, who, n)
  {
    var times := PlannedTimes(cfg, n);
    PlannedTimesArePlan(cfg, n, times);
    PlannedTimesAreSorted(cfg, n, times);
    PlanReaches(cfg, times, who, 1);
  }

  function Zeros(n: nat): (times: seq<U64>)
    ensures |times| == n && forall i :: 0 <= i < n ==> times[i] == 0
  {
    seq(n, _ => 0)
  }

  /** What the limiter remembers after `n` operations at time zero. */
  function RecordAtZero(who: Address, n: U32): States {
    if n == 0 then map[] else map[who := State(0, 0, n)]
  }

  lemma AdmitAtZero(cfg: Config, who: Address, n: U32)
    requires cfg.window > 0
    ensures Admit(Record(RecordAtZero(who, n), who, 0), 0, cfg)
         == if n < cfg.maxOps then Commit(State(0, 0, n + 1)) else Abort(LimitExceeded)
  {
  }

  lemma OneMoreZero(who: Address, n: nat)
    requires n > 0
    ensures AttemptsAt(who, Zeros(n)) == AttemptsAt(who, Zeros(n - 1)) + [Attempt(who, 0)]
    ensures Zeros(n) == Zeros(n - 1) + [0]
  {
  }

  /** Main result: the cooldown does not see operations at time zero. Of any number of attempts
      there, one full window is let through, whatever the cooldown. */
  lemma {:induction false} TimeZeroHasNoCooldown(cfg: Config, who: Address, n: nat)
    requires cfg.window > 0
    ensures Accepted(AttemptsAt(who, Zeros(n)), {}, cfg, who) == Zeros(Min(n, cfg.maxOps))
    ensures After(AttemptsAt(who, Zeros(n)), {}, cfg) == RecordAtZero(who, Min(n, cfg.maxOps))
  {
    if n == 0 {
    } else {
      TimeZeroHasNoCooldown(cfg, who, n - 1);
      AdmitAtZero(cfg, who, Min(n - 1, cfg.maxOps));
      OneMoreAttempt(AttemptsAt(who, Zeros(n - 1)), cfg, who, 0);
      OneMoreZero(who, n);
    }
  }

  lemma OneWindowReaches(cfg: Config, who: Address, n: nat)
    requires cfg.window > 0 && n <= cfg.maxOps
    ensures Reached(cfg, who, n)
  {
    var tries := AttemptsAt(who, Zeros(n));
    TimeZeroHasNoCooldown(cfg, who, n);
    var acc := Accepted(tries, {}, cfg, who);
    CountInHasSuffix(acc, 0, 0, cfg.window);
    assert Legal(tries, {}, who) && Burst(tries, {}, cfg, who, 0) >= n;
  }

  // ---------------------------------------------------------------------------------------------
  // The exact peak
  // ---------------------------------------------------------------------------------------------

  /** Main result: for every configuration and every n, some interval of window length can hold n
      operations of one address if and only if n is feasible. */
  lemma PeakIsExact(cfg: Config, who: Address, n: nat)
    requires cfg.window > 0
    ensures Reached(cfg, who, n) <==> Feasible(cfg, n)
  {
    if Feasible(cfg, n) {
      if n <= cfg.maxOps {
        OneWindowReaches(cfg, who, n);
      } else {
        TwoWindowsReach(cfg, who, n);
      }
    } else {
      forall tries, exempt, a: int | Legal(tries, exempt, who)
        ensures Burst(tries, exempt, cfg, who, a) < n
      {
        PaceBoundsCount(tries, exempt, cfg, who, a, n - 1);
      }
    }
  }

  /** When one full window cannot be exceeded. */
  predicate OneWindowIsAll(cfg: Config) {
    || cfg.maxOps <= 1
    || cfg.window <= Max(1, cfg.maxOps * cfg.cooldown)
    || cfg.window + cfg.cooldown >= U64_MAX
  }

  lemma OneMoreIsFeasible(cfg: Config)
    ensures Feasible(cfg, cfg.maxOps + 1) <==> !OneWindowIsAll(cfg)
  {
  }

  lemma NotReachedMeansBounded(cfg: Config, who: Address, n: nat)
    ensures !Reached(cfg, who, n + 1)
            <==> forall tries, exempt, a: int :: Legal(tries, exempt, who) ==> Burst(tries, exempt, cfg, who, a) <= n
  {
    if !Reached(cfg, who, n + 1) {
      forall tries, exempt, a: int | Legal(tries, exempt, who)
        ensures Burst(tries, exempt, cfg, who, a) <= n
      {
        assert !(Burst(tries, exempt, cfg, who, a) >= n + 1);
      }
    }
  }

  /** Main result: the limit one would expect, M operations per window length, holds in every run if
      and only if M is at most one, or M cooldowns fill the window, or the clock ends too early. */
  lemma LimitHoldsExactlyWhen(cfg: Config, who: Address)
    requires cfg.window > 0
    ensures
      (forall tries, exempt, a: int ::
         Legal(tries, exempt, who) ==> Burst(tries, exempt, cfg, who, a) <= cfg.maxOps)
      <==>
      || cfg.maxOps <= 1
      || cfg.window <= Max(1, cfg.maxOps * cfg.cooldown)
      || cfg.window + cfg.cooldown >= U64_MAX
  {
    PeakIsExact(cfg, who, cfg.maxOps + 1);
    OneMoreIsFeasible(cfg);
    NotReachedMeansBounded(cfg, who, cfg.maxOps);
  }

  /** Main result: two windows back to back hold 2M-1 operations if and only if that many cooldowns
      fit in one window length and the clock lasts. */
  lemma WindowBoundIsTight(cfg: Config, who: Address)
    requires cfg.window > 0 && cfg.maxOps > 1
    ensures Reached(cfg, who, Quota(cfg))
            <==>
            && cfg.window > Max(1, (2 * cfg.maxOps - 2) * cfg.cooldown)
            && cfg.window + (cfg.maxOps - 1) * cfg.cooldown < U64_MAX
    ensures !Reached(cfg, who, Quota(cfg) + 1)
  {
    PeakIsExact(cfg, who, Quota(cfg));
    PeakIsExact(cfg, who, Quota(cfg) + 1);
  }
}
