/** The per-address fixed-window rate limiter with a cooldown (module `anti_abuse`). */
module RateLimiter {
  import opened Prelude

  datatype Config = Config(window: U64, maxOps: U32, cooldown: U64)

  datatype State = State(last: U64, windowStart: U64, count: U32)

  type States = map<Address, State>

  datatype Fault = InCooldown | LimitExceeded

  /** The record an address has, or the one it gets on its first operation. */
  function Record(states: States, who: Address, now: U64): State {
    if who in states then states[who] else State(0, now, 0)
  }

  /** The decision for an address that is not exempt. */
  function Admit(st: State, now: U64, cfg: Config): Outcome<State, Fault> {
    if st.last > 0 && now < SatAdd(st.last, cfg.cooldown) then Abort(InCooldown)
    else if now >= SatAdd(st.windowStart, cfg.window) then Commit(State(now, now, 1))
    else if st.count >= cfg.maxOps then Abort(LimitExceeded)
    else Commit(State(now, st.windowStart, st.count + 1))
  }

  function Check(states: States, exempt: set<Address>, who: Address, now: U64, cfg: Config): Outcome<States, Fault> {
    if who in exempt then Commit(states)
    else
      match Admit(Record(states, who, now), now, cfg)
      case Abort(e) => Abort(e)
      case Commit(st) => Commit(states[who := st])
  }

  class AntiAbuse {
    var states: States
    var exempt: set<Address>

    constructor ()
      ensures states == map[] && exempt == {}
    {
      states, exempt := map[], {};
    }

    /** What the host does to this storage when a transaction panics. */
    method Restore(stored: States)
      modifies this`states
      ensures states == stored
    {
      states := stored;
    }

    method SetWhitelist(who: Address, whitelisted: bool)
      modifies this`exempt
      ensures exempt == if whitelisted then old(exempt) + {who} else old(exempt) - {who}
    {
      if whitelisted {
        exempt := exempt + {who};
      } else {
        exempt := exempt - {who};
      }
    }

    method CheckRateLimit(who: Address, now: U64, cfg: Config) returns (failure: Option<Fault>)
      modifies this`states
      ensures Follows(old(states), states, failure, Check(old(states), exempt, who, now, cfg))
    {
      if who in exempt {
        return None;
      }
      var state := if who in states then states[who] else State(0, now, 0);
      if state.last > 0 && now < SatAdd(state.last, cfg.cooldown) {
        return Some(InCooldown);
      }
      if now >= SatAdd(state.windowStart, cfg.window) {
        state := state.(windowStart := now, count := 1);
      } else {
        if state.count >= cfg.maxOps {
          return Some(LimitExceeded);
        }
        state := state.(count := state.count + 1);
      }
      state := state.(last := now);
      states := states[who := state];
      return None;
    }
  }

  // ---------------------------------------------------------------------------------------------
  // Runs: any interleaving of attempts by any addresses under one configuration
  // ---------------------------------------------------------------------------------------------

  datatype Attempt = Attempt(who: Address, now: U64)

  /** The stored records after a run; a rejected attempt leaves them alone. */
  function After(tries: seq<Attempt>, exempt: set<Address>, cfg: Config): States {
    if tries == [] then map[]
    else
      var before := After(tries[..|tries| - 1], exempt, cfg);
      var t := tries[|tries| - 1];
      match Check(before, exempt, t.who, t.now, cfg)
      case Commit(s) => s
      case Abort(_) => before
  }

  /** The times at which `who` was let through during a run. */
  function Accepted(tries: seq<Attempt>, exempt: set<Address>, cfg: Config, who: Address): seq<U64> {
    if tries == [] then []
    else
      var before := tries[..|tries| - 1];
      var t := tries[|tries| - 1];
      var earlier := Accepted(before, exempt, cfg, who);
      if t.who == who && Check(After(before, exempt, cfg), exempt, who, t.now, cfg).Commit?
      then earlier + [t.now] else earlier
  }

  /** Ledger time never goes back. */
  predicate Chronological(tries: seq<Attempt>) {
    forall i, j :: 0 <= i < j < |tries| ==> tries[i].now <= tries[j].now
  }

  predicate BeforeLastTimestamp(tries: seq<Attempt>) {
    forall i :: 0 <= i < |tries| ==> tries[i].now < U64_MAX
  }

  predicate Sorted(times: seq<U64>) {
    forall i, j :: 0 <= i < j < |times| ==> times[i] <= times[j]
  }

  /** Operations `k` places apart are at least `gap` seconds apart. */
  predicate Spaced(times: seq<U64>, k: nat, gap: int) {
    forall i :: 0 <= i && i + k < |times| ==> times[i] + gap <= times[i + k]
  }

  /** How many of the times fall in the half-open interval from `a` to `b`. */
  function CountIn(times: seq<U64>, a: int, b: int): nat {
    if times == [] then 0
    else CountIn(times[..|times| - 1], a, b) + if a <= times[|times| - 1] < b then 1 else 0
  }

  /** The most operations any window-length interval can hold. */
  function Quota(cfg: Config): nat {
    if cfg.maxOps == 0 then 0 else 2 * cfg.maxOps - 1
  }

  lemma {:induction false} CountInAtMostLength(times: seq<U64>, a: int, b: int)
    ensures CountIn(times, a, b) <= |times|
  {
    if times == [] {
    } else {
      CountInAtMostLength(times[..|times| - 1], a, b);
    }
  }

  /** A sorted prefix whose last element is before the interval adds nothing to the count. */
  lemma {:induction false} CountInSkipsPrefix(times: seq<U64>, k: nat, a: int, b: int)
    requires k <= |times|
    requires forall i :: 0 <= i < k ==> times[i] < a
    ensures CountIn(times, a, b) <= |times| - k
  {
    if |times| > k {
      CountInSkipsPrefix(times[..|times| - 1], k, a, b);
    } else if times != [] {
      CountInSkipsPrefix(times[..k - 1], k - 1, a, b);
    }
  }

  lemma {:induction false} SpacingBoundsCount(times: seq<U64>, k: nat, gap: int, a: int)
    requires Sorted(times) && Spaced(times, k, gap)
    requires k == 0 ==> times == []
    ensures CountIn(times, a, a + gap) <= k
  {
    if times == [] {
    } else {
      var n := |times|;
      var last := times[n - 1];
      if a <= last < a + gap && n > k {
        assert times[n - 1 - k] + gap <= times[n - 1 - k + k];
        CountInSkipsPrefix(times, n - k, a, a + gap);
      } else if n <= k {
        CountInAtMostLength(times, a, a + gap);
      } else {
        SpacingBoundsCount(times[..n - 1], k, gap, a);
      }
    }
  }

  /** What the stored record of an address knows about the operations let through so far:
      `count` of them are in the current window, the first of those opened it, and the operation
      `maxOps` places before the opening one is a whole window older. */
  predicate Tracks(st: State, acc: seq<U64>, cfg: Config) {
    && 1 <= st.count <= |acc|
    && st.count <= cfg.maxOps
    && st.last == acc[|acc| - 1]
    && st.windowStart == acc[|acc| - st.count]
    && WindowApart(acc, |acc| - st.count, cfg)
  }

  predicate WindowApart(acc: seq<U64>, opening: nat, cfg: Config)
    requires opening < |acc|
  {
    opening >= cfg.maxOps ==> acc[opening - cfg.maxOps] + cfg.window <= acc[opening]
  }

  predicate Remembers(states: States, who: Address, acc: seq<U64>, cfg: Config) {
    if acc == [] then who !in states else who in states && Tracks(states[who], acc, cfg)
  }

  predicate Cooled(acc: seq<U64>, cooldown: int) {
    forall i :: 0 < i < |acc| && acc[i - 1] > 0 ==> acc[i - 1] + cooldown <= acc[i]
  }

  lemma SortedAppend(acc: seq<U64>, now: U64)
    requires Sorted(acc) && (acc != [] ==> acc[|acc| - 1] <= now)
    ensures Sorted(acc + [now])
  {
  }

  lemma CooledAppend(st: State, acc: seq<U64>, now: U64, cfg: Config)
    requires acc != [] ==> Tracks(st, acc, cfg)
    requires Cooled(acc, cfg.cooldown) && now < U64_MAX && Admit(st, now, cfg).Commit?
    ensures Cooled(acc + [now], cfg.cooldown)
  {
    var acc' := acc + [now];
    forall i | 0 < i < |acc'| && acc'[i - 1] > 0
      ensures acc'[i - 1] + cfg.cooldown <= acc'[i]
    {
      if i == |acc| {
        assert acc'[i - 1] == st.last;
      } else {
        assert acc[i - 1] + cfg.cooldown <= acc[i];
      }
    }
  }

  /** One more operation keeps operations 2M-1 apart a window away from each other. */
  lemma AcceptKeepsSpacing(st: State, acc: seq<U64>, now: U64, cfg: Config)
    requires acc != [] && Tracks(st, acc, cfg) && Sorted(acc) && st.last <= now < U64_MAX
    requires Spaced(acc, 2 * cfg.maxOps - 1, cfg.window)
    requires Admit(st, now, cfg).Commit?
    ensures Spaced(acc + [now], 2 * cfg.maxOps - 1, cfg.window)
  {
    var n, opening, k := |acc|, |acc| - st.count, 2 * cfg.maxOps - 1;
    forall i | 0 <= i && i + k < n + 1
      ensures (acc + [now])[i] + cfg.window <= (acc + [now])[i + k]
    {
      if i + k == n {
        if now >= SatAdd(st.windowStart, cfg.window) {
          assert i <= opening && acc[i] <= acc[opening];
        } else {
          assert i <= opening - cfg.maxOps;
          assert acc[i] <= acc[opening - cfg.maxOps];
        }
      }
    }
  }

  /** One more operation leaves a record that describes the extended history. */
  lemma AcceptKeepsTrack(st: State, acc: seq<U64>, now: U64, cfg: Config)
    requires acc != [] && Tracks(st, acc, cfg) && Sorted(acc) && st.last <= now < U64_MAX
    requires Admit(st, now, cfg).Commit?
    ensures Tracks(Admit(st, now, cfg).state, acc + [now], cfg)
  {
    var n, opening, m := |acc|, |acc| - st.count, cfg.maxOps;
    var acc' := acc + [now];
    if now >= SatAdd(st.windowStart, cfg.window) {
      if n >= m {
        assert acc[n - m] <= acc[opening];
      }
      assert WindowApart(acc', n, cfg);
    } else {
      assert WindowApart(acc', opening, cfg);
    }
  }

  /** The history and the stored record after a run, taken together. */
  predicate Disciplined(states: States, who: Address, acc: seq<U64>, cfg: Config) {
    && Remembers(states, who, acc, cfg)
    && Sorted(acc)
    && Cooled(acc, cfg.cooldown)
    && if cfg.maxOps == 0 then acc == [] else Spaced(acc, 2 * cfg.maxOps - 1, cfg.window)
  }

  lemma FirstIsTracked(now: U64, cfg: Config)
    requires cfg.window > 0 && now < U64_MAX && Admit(State(0, now, 0), now, cfg).Commit?
    ensures cfg.maxOps > 0 && Tracks(Admit(State(0, now, 0), now, cfg).state, [now], cfg)
    ensures Spaced([now], 2 * cfg.maxOps - 1, cfg.window)
  {
    assert WindowApart([now], 0, cfg);
  }

  lemma AcceptKeepsDiscipline(states: States, who: Address, acc: seq<U64>, now: U64, cfg: Config)
    requires Disciplined(states, who, acc, cfg) && cfg.window > 0 && now < U64_MAX
    requires acc != [] ==> acc[|acc| - 1] <= now
    requires Admit(Record(states, who, now), now, cfg).Commit?
    ensures Disciplined(states[who := Admit(Record(states, who, now), now, cfg).state], who, acc + [now], cfg)
  {
    var st := Record(states, who, now);
    assert Sorted(acc + [now]) by {
      SortedAppend(acc, now);
    }
    assert Cooled(acc + [now], cfg.cooldown) by {
      CooledAppend(st, acc, now, cfg);
    }
    assert cfg.maxOps > 0 && Spaced(acc + [now], 2 * cfg.maxOps - 1, cfg.window)
           && Tracks(Admit(st, now, cfg).state, acc + [now], cfg) by {
      if acc == [] {
        assert acc + [now] == [now];
        FirstIsTracked(now, cfg);
      } else {
        AcceptKeepsSpacing(st, acc, now, cfg);
        AcceptKeepsTrack(st, acc, now, cfg);
      }
    }
  }

  /** A rejected attempt, or one by somebody else, leaves an address's record as it was. */
  lemma OthersDoNotMatter(states: States, exempt: set<Address>, cfg: Config, t: Attempt, who: Address)
    requires t.who != who || Check(states, exempt, t.who, t.now, cfg).Abort?
    ensures var after := match Check(states, exempt, t.who, t.now, cfg) case Commit(s) => s case Abort(_) => states;
      (who in after <==> who in states) && (who in states ==> after[who] == states[who])
  {
  }

  lemma OthersKeepDiscipline(states: States, states': States, who: Address, acc: seq<U64>, cfg: Config)
    requires Disciplined(states, who, acc, cfg)
    requires (who in states' <==> who in states) && (who in states ==> states'[who] == states[who])
    ensures Disciplined(states', who, acc, cfg)
  {
  }

  lemma {:induction false} RunKeepsDiscipline(tries: seq<Attempt>, exempt: set<Address>, cfg: Config, who: Address)
    requires cfg.window > 0 && who !in exempt
    requires Chronological(tries) && BeforeLastTimestamp(tries)
    ensures var acc := Accepted(tries, exempt, cfg, who);
      && Disciplined(After(tries, exempt, cfg), who, acc, cfg)
      && (acc != [] ==> tries != [] && acc[|acc| - 1] <= tries[|tries| - 1].now)
  {
    if tries == [] {
    } else {
      var before := tries[..|tries| - 1];
      var t := tries[|tries| - 1];
      RunKeepsDiscipline(before, exempt, cfg, who);
      var states := After(before, exempt, cfg);
      var acc := Accepted(before, exempt, cfg, who);
      if t.who == who && Check(states, exempt, who, t.now, cfg).Commit? {
        AcceptKeepsDiscipline(states, who, acc, t.now, cfg);
      } else {
        OthersDoNotMatter(states, exempt, cfg, t, who);
        OthersKeepDiscipline(states, After(tries, exempt, cfg), who, acc, cfg);
      }
    }
  }

  lemma DisciplineBoundsCount(states: States, who: Address, acc: seq<U64>, cfg: Config, a: int)
    requires Disciplined(states, who, acc, cfg)
    ensures CountIn(acc, a, a + cfg.window) <= Quota(cfg)
  {
    SpacingBoundsCount(acc, Quota(cfg), cfg.window, a);
  }

  lemma DisciplineSpacesOut(states: States, who: Address, acc: seq<U64>, cfg: Config, i: nat, j: nat)
    requires Disciplined(states, who, acc, cfg) && i < j < |acc| && acc[i] > 0
    ensures acc[i] + cfg.cooldown <= acc[j]
  {
    assert acc[i + 1 - 1] + cfg.cooldown <= acc[i + 1] <= acc[j];
  }

  /** Main result: whatever other addresses do in between, no interval of window length holds more
      than 2M-1 operations of one address, one fewer than the naive two full windows. */
  lemma WindowBound(tries: seq<Attempt>, exempt: set<Address>, cfg: Config, who: Address, a: int)
    requires cfg.window > 0 && who !in exempt
    requires Chronological(tries) && BeforeLastTimestamp(tries)
    ensures CountIn(Accepted(tries, exempt, cfg, who), a, a + cfg.window) <= Quota(cfg)
  {
    RunKeepsDiscipline(tries, exempt, cfg, who);
    DisciplineBoundsCount(After(tries, exempt, cfg), who, Accepted(tries, exempt, cfg, who), cfg, a);
  }

  /** Main result: consecutive operations of one address are a cooldown apart, unless the earlier
      one was made at time zero, which the limiter cannot tell from "never". */
  lemma CooldownRespected(tries: seq<Attempt>, exempt: set<Address>, cfg: Config, who: Address, i: nat, j: nat)
    requires cfg.window > 0 && who !in exempt
    requires Chronological(tries) && BeforeLastTimestamp(tries)
    requires i < j < |Accepted(tries, exempt, cfg, who)| && Accepted(tries, exempt, cfg, who)[i] > 0
    ensures Accepted(tries, exempt, cfg, who)[i] + cfg.cooldown <= Accepted(tries, exempt, cfg, who)[j]
  {
    RunKeepsDiscipline(tries, exempt, cfg, who);
    DisciplineSpacesOut(After(tries, exempt, cfg), who, Accepted(tries, exempt, cfg, who), cfg, i, j);
  }

  /** Times from position `k` on that all lie in the interval are all counted. */
  lemma {:induction false} CountInHasSuffix(times: seq<U64>, k: nat, a: int, b: int)
    requires k <= |times| && forall i :: k <= i < |times| ==> a <= times[i] < b
    ensures CountIn(times, a, b) >= |times| - k
  {
    if k == |times| {
    } else {
      CountInHasSuffix(times[..|times| - 1], k, a, b);
    }
  }

  /** Turned away within a cooldown of the last operation, or after M of them in one window length. */
  predicate HasCause(acc: seq<U64>, now: U64, cfg: Config) {
    || (acc != [] && now < acc[|acc| - 1] + cfg.cooldown)
    || CountIn(acc, now - cfg.window + 1, now + 1) >= cfg.maxOps
  }

  lemma TrackedRejection(st: State, acc: seq<U64>, now: U64, cfg: Config)
    requires acc != [] && Tracks(st, acc, cfg) && Sorted(acc) && st.last <= now < U64_MAX
    requires Admit(st, now, cfg).Abort?
    ensures HasCause(acc, now, cfg)
  {
    if !(st.last > 0 && now < SatAdd(st.last, cfg.cooldown)) {
      CountInHasSuffix(acc, |acc| - st.count, now - cfg.window + 1, now + 1);
    }
  }

  /** Main result: the limiter never turns anyone away without cause. A rejected attempt found the
      previous operation less than a cooldown ago, or M operations in the last window length. */
  lemma RejectionHasCause(tries: seq<Attempt>, exempt: set<Address>, cfg: Config, who: Address, now: U64)
    requires cfg.window > 0 && who !in exempt
    requires Chronological(tries) && BeforeLastTimestamp(tries) && now < U64_MAX
    requires tries != [] ==> tries[|tries| - 1].now <= now
    requires Check(After(tries, exempt, cfg), exempt, who, now, cfg).Abort?
    ensures HasCause(Accepted(tries, exempt, cfg, who), now, cfg)
  {
    RunKeepsDiscipline(tries, exempt, cfg, who);
    RejectedByRecord(After(tries, exempt, cfg), who, Accepted(tries, exempt, cfg, who), now, cfg);
  }

  lemma RejectedByRecord(states: States, who: Address, acc: seq<U64>, now: U64, cfg: Config)
    requires Disciplined(states, who, acc, cfg) && cfg.window > 0 && now < U64_MAX
    requires acc != [] ==> acc[|acc| - 1] <= now
    requires Admit(Record(states, who, now), now, cfg).Abort?
    ensures HasCause(acc, now, cfg)
  {
    if acc != [] {
      TrackedRejection(states[who], acc, now, cfg);
    }
  }

  /** The times of all attempts of one address. */
  function TimesOf(tries: seq<Attempt>, who: Address): seq<U64> {
    if tries == [] then []
    else
      var earlier, t := TimesOf(tries[..|tries| - 1], who), tries[|tries| - 1];
      if t.who == who then earlier + [t.now] else earlier
  }

  /** Main result: an exempt address is let through every time, whatever the configuration, and leaves
      no record. */
  lemma {:induction false} ExemptAreNeverLimited(tries: seq<Attempt>, exempt: set<Address>, cfg: Config, who: Address)
    requires who in exempt
    ensures who !in After(tries, exempt, cfg) && Accepted(tries, exempt, cfg, who) == TimesOf(tries, who)
  {
    if tries == [] {
    } else {
      ExemptAreNeverLimited(tries[..|tries| - 1], exempt, cfg, who);
    }
  }

  /** Nothing at all is limited at the last representable timestamp: there both saturating
      deadlines coincide with the present, so every attempt opens a fresh window. */
  lemma {:induction false} NoLimitAtLastTimestamp(n: nat, exempt: set<Address>, cfg: Config, who: Address)
    requires who !in exempt && cfg.window > 0 && cfg.maxOps > 0
    ensures Accepted(seq(n, _ => Attempt(who, U64_MAX)), exempt, cfg, who) == seq(n, _ => U64_MAX)
    ensures n > 0 ==> After(seq(n, _ => Attempt(who, U64_MAX)), exempt, cfg) == map[who := State(U64_MAX, U64_MAX, 1)]
  {
    if n == 0 {
    } else {
      var tries := seq(n, _ => Attempt(who, U64_MAX));
      assert tries[..n - 1] == seq(n - 1, _ => Attempt(who, U64_MAX));
      NoLimitAtLastTimestamp(n - 1, exempt, cfg, who);
    }
  }
}
