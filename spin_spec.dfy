/**
 * The waiting acquisition as a value: one round of the spin loop (an attempt,
 * then the cap check, a sleep and the interval update), the whole loop as
 * the rounds run until one stops or the deadline passes, and what the loop
 * guarantees about the attempts and sleeps it produces.
 */
module SpinSpec {
  import opened Wrappers
  import opened LockConfig
  import opened Backoff
  import opened RedisStore

  type Positive = n: int | n > 0 witness 1

  /** What the client does that the outside world can observe, in order. */
  datatype Event =
    | Acquire(key: string, token: string, leaseMs: int, at: int, acquired: bool)
    | Slept(ms: int, interrupted: bool)
    | Release(key: string, token: string, deleted: int)

  /**
   * How one sleep ends: whether the thread is interrupted, how much later
   * than asked it wakes, and what the other processes (and lease expiry)
   * left in the store meanwhile.
   */
  datatype Wake = Wake(interrupted: bool, lagNs: nat, records: Store)

  /** The acquisition attempts in a trace, in order. */
  function Attempts(t: seq<Event>): (a: seq<Event>)
    ensures |a| <= |t|
    ensures forall i | 0 <= i < |a| :: a[i].Acquire?
  {
    if t == [] then []
    else Attempts(t[..|t| - 1]) + (if t[|t| - 1].Acquire? then [t[|t| - 1]] else [])
  }

  /** The durations of the sleeps in a trace, in order. */
  function Sleeps(t: seq<Event>): (s: seq<int>)
    ensures |s| <= |t|
  {
    if t == [] then []
    else Sleeps(t[..|t| - 1]) + (if t[|t| - 1].Slept? then [t[|t| - 1].ms] else [])
  }

  /** Both filters distribute over concatenation. */
  lemma {:induction false} FiltersConcat(t: seq<Event>, u: seq<Event>)
    ensures Attempts(t + u) == Attempts(t) + Attempts(u)
    ensures Sleeps(t + u) == Sleeps(t) + Sleeps(u)
    decreases |u|
  {
    if u == [] {
      assert t + u == t;
    } else {
      var u' := u[..|u| - 1];
      assert (t + u)[..|t + u| - 1] == t + u';
      FiltersConcat(t, u');
    }
  }

  /** Everything the loop needs that does not change between rounds. */
  datatype SpinParams = SpinParams(
    key: string,
    leaseMs: int,
    deadline: int,
    spin: Option<SpinWaitConfig>,
    stepMs: int,
    tokens: nat -> string,
    wakes: nat -> Wake,
    roundTripNs: Positive)

  /**
   * The loop's variables and the world it sees: the clock, the store, the
   * interrupt status, the attempt counter, the current interval and how many
   * sleeps have been taken. Attempt `j` offers `tokens(j)`; sleep `j` ends as `wakes(j)`.
   */
  datatype SpinState = SpinState(
    clock: int,
    records: Store,
    flag: bool,
    attempts: nat,
    intervalMs: int,
    slept: nat)

  /** The result of a whole waiting call: the verdict, the events, the final state. */
  datatype SpinResult = SpinResult(ok: bool, events: seq<Event>, last: SpinState)

  /** How a round ends: the loop returns or breaks, or it goes round again. */
  datatype Round =
    | Stop(ok: bool, events: seq<Event>, last: SpinState)
    | Again(events: seq<Event>, next: SpinState)

  /** The strategy the loop follows; without a configuration it never grows an interval. */
  function StrategyOf(spin: Option<SpinWaitConfig>): SpinWaitStrategy {
    if spin.Some? then spin.value.strategy else FIXED
  }

  /**
   * The loop's parameters for a call that starts at `start`: the lease in
   * milliseconds, the deadline `start + waitTime` in nanoseconds, and the step.
   */
  function ParamsOf(key: string, start: int, waitTime: int, leaseTime: int, unit: TimeUnit,
                    spin: Option<SpinWaitConfig>, tokens: nat -> string, wakes: nat -> Wake,
                    roundTripNs: Positive): SpinParams
  {
    SpinParams(key, ToMillis(unit, leaseTime), start + ToNanos(unit, waitTime), spin, StepOf(spin),
               tokens, wakes, roundTripNs)
  }

  /** The configured interval in milliseconds, as the loop adds it; 0 without a configuration. */
  function StepOf(spin: Option<SpinWaitConfig>): int {
    if spin.Some? then RawIntervalMs(spin.value) else 0
  }

  /** `Math.max(0, step)`. */
  function Clamp(step: int): (b: nat)
    ensures b >= step && (b == 0 || b == step)
  {
    if step > 0 then step else 0
  }

  /** The first sleep is the clamped step. */
  lemma BaseIsClampedStep(spin: Option<SpinWaitConfig>)
    ensures BaseIntervalMs(spin) == Clamp(StepOf(spin))
  {
  }

  /** The state the loop starts in: no attempts, no sleeps, the base interval. */
  function StartState(clock: int, records: Store, flag: bool, stepMs: int): SpinState {
    SpinState(clock, records, flag, 0, Clamp(stepMs), 0)
  }

  /**
   * One pass of the loop body, started once the clock is within the deadline.
   * A round that goes on has moved the clock forward.
   */
  function SpinRound(p: SpinParams, st: SpinState): (r: Round)
    ensures r.Again? ==> r.next.clock > st.clock
  {
    var token := p.tokens(st.attempts);
    var acquired := p.key !in st.records;
    var tried := Acquire(p.key, token, p.leaseMs, st.clock, acquired);
    var st1 := st.(clock := st.clock + p.roundTripNs,
                   records := if acquired then st.records[p.key := token] else st.records);
    if acquired then Stop(true, [tried], st1)
    else if p.spin.None? then Stop(false, [tried], st1)
    else
      var st2 := st1.(attempts := st.attempts + 1);
      if p.spin.value.maxAttempts > 0 && st2.attempts >= p.spin.value.maxAttempts then
        Stop(false, [tried], st2)
      else if st.intervalMs <= 0 then Again([tried], st2)
      else
        var wake := p.wakes(st.slept);
        var interrupted := st.flag || wake.interrupted;
        var nap := Slept(st.intervalMs, interrupted);
        var st3 :=
          if st.flag then st2.(flag := false, slept := st.slept + 1)
          else st2.(clock := st2.clock + (if interrupted then 0 else st.intervalMs * 1_000_000) + wake.lagNs,
                    records := wake.records, flag := false, slept := st.slept + 1);
        if interrupted then Stop(false, [tried, nap], st3.(flag := true))
        else
          var grown := NextInterval(p.spin.value.strategy, st.intervalMs, p.stepMs);
          Again([tried, nap], st3.(intervalMs := grown))
  }

  /**
   * The loop: rounds while the clock is within the deadline. A call that
   * starts within the deadline begins with an attempt at once; the clock
   * never runs backwards; a successful call ends with the key in the store.
   */
  function Spin(p: SpinParams, st: SpinState): (r: SpinResult)
    ensures r.events == [] <==> st.clock > p.deadline
    ensures r.events != [] ==>
              r.events[0] == Acquire(p.key, p.tokens(st.attempts), p.leaseMs, st.clock, p.key !in st.records)
    ensures r.last.clock >= st.clock
    ensures r.ok ==> p.key in r.last.records
    decreases p.deadline - st.clock
  {
    if st.clock > p.deadline then SpinResult(false, [], st)
    else
      match SpinRound(p, st)
      case Stop(ok, evs, last) => SpinResult(ok, evs, last)
      case Again(evs, next) =>
        var rest := Spin(p, next);
        SpinResult(rest.ok, evs + rest.events, rest.last)
  }

  /**
   * The attempts `a` of one waiting call, the first offering `tokens(first)`:
   * all for the call's key and lease, each with the next token, none after
   * the deadline, and only the last one successful, which it is exactly when
   * the call reports `ok`.
   */
  predicate AttemptsFollow(a: seq<Event>, p: SpinParams, first: nat, ok: bool)
    decreases |a|
  {
    a != [] ==>
      && a[0].Acquire? && a[0].key == p.key && a[0].leaseMs == p.leaseMs
      && a[0].token == p.tokens(first) && a[0].at <= p.deadline
      && (a[0].acquired <==> ok && |a| == 1)
      && AttemptsFollow(a[1..], p, first + 1, ok)
  }

  /** Attempt `j` of attempts that follow offers token `first + j`; only a final one can succeed. */
  lemma {:induction false} AttemptsFollowAt(a: seq<Event>, p: SpinParams, first: nat, ok: bool, j: nat)
    requires AttemptsFollow(a, p, first, ok) && j < |a|
    ensures && a[j].Acquire? && a[j].key == p.key && a[j].leaseMs == p.leaseMs
            && a[j].token == p.tokens(first + j) && a[j].at <= p.deadline
            && (a[j].acquired <==> ok && j == |a| - 1)
    decreases j
  {
    if j > 0 {
      AttemptsFollowAt(a[1..], p, first + 1, ok, j - 1);
    }
  }

  /** An interrupted sleep can only be the last event, of a failed call that sets the interrupt status. */
  predicate InterruptEnds(t: seq<Event>, ok: bool, flag: bool) {
    forall i | 0 <= i < |t| && t[i].Slept? && t[i].interrupted :: i == |t| - 1 && !ok && flag
  }

  /** The interval the loop holds after `st.slept` sleeps follows its strategy. */
  predicate IntervalOnSchedule(p: SpinParams, st: SpinState) {
    var b := Clamp(p.stepMs);
    && (b == 0 ==> st.intervalMs == 0)
    && (b > 0 ==> st.intervalMs == IntervalAt(StrategyOf(p.spin), b, st.slept + 1))
  }

  /** What one round emits: the attempt with this round's token and time, then at most one sleep. */
  lemma RoundShape(p: SpinParams, st: SpinState)
    ensures var evs := SpinRound(p, st).events;
            && (|evs| == 1 || |evs| == 2)
            && evs[0] == Acquire(p.key, p.tokens(st.attempts), p.leaseMs, st.clock, p.key !in st.records)
            && (|evs| == 2 ==> evs[1].Slept? && evs[1].ms == st.intervalMs && st.intervalMs > 0)
            && Attempts(evs) == [evs[0]]
            && Sleeps(evs) == (if |evs| == 2 then [st.intervalMs] else [])
  {
    var evs := SpinRound(p, st).events;
    assert evs[..1] == [evs[0]];
    if |evs| == 2 {
      assert evs[..|evs| - 1] == [evs[0]];
    }
  }

  /** A round that goes on follows a failed attempt under a configuration, and counts it. */
  lemma RoundAgain(p: SpinParams, st: SpinState)
    requires SpinRound(p, st).Again?
    ensures var round := SpinRound(p, st);
            var evs := round.events;
            && p.key in st.records && p.spin.Some?
            && round.next.attempts == st.attempts + 1
            && round.next.slept == st.slept + |evs| - 1
            && (|evs| == 1 ==> st.intervalMs <= 0 && round.next.intervalMs == st.intervalMs)
            && (|evs| == 2 ==>
                  && !evs[1].interrupted
                  && round.next.intervalMs
                     == NextInterval(p.spin.value.strategy, st.intervalMs, p.stepMs))
  {
  }

  /** A round that stops after a sleep was interrupted, and the call fails with the status set. */
  lemma RoundStop(p: SpinParams, st: SpinState)
    requires SpinRound(p, st).Stop?
    ensures var round := SpinRound(p, st);
            && (|round.events| == 2 ==> round.events[1].interrupted && !round.ok && round.last.flag)
            && (!round.ok ==> || p.spin.None?
                              || (0 < p.spin.value.maxAttempts && st.attempts + 1 >= p.spin.value.maxAttempts)
                              || |round.events| == 2)
  {
  }

  /** Sleep durations `sl` that continue the strategy's schedule from interval number `k` on. */
  predicate SleepsFollow(sl: seq<int>, s: SpinWaitStrategy, b: int, k: nat)
    requires k >= 1
    decreases |sl|
  {
    sl != [] ==> sl[0] == IntervalAt(s, b, k) && SleepsFollow(sl[1..], s, b, k + 1)
  }

  /** Sleeps that follow the schedule from interval `k` on extend the schedule's first `k - 1` sleeps. */
  lemma {:induction false} SleepsFollowSchedule(sl: seq<int>, s: SpinWaitStrategy, b: int, k: nat)
    requires k >= 1 && SleepsFollow(sl, s, b, k)
    ensures Schedule(s, b, k - 1) + sl == Schedule(s, b, k - 1 + |sl|)
    decreases |sl|
  {
    if sl != [] {
      SleepsFollowSchedule(sl[1..], s, b, k + 1);
      calc {
        Schedule(s, b, k - 1) + sl;
        { assert sl == [sl[0]] + sl[1..]; }
        Schedule(s, b, k - 1) + [sl[0]] + sl[1..];
        Schedule(s, b, k) + sl[1..];
      }
    }
  }

  /** The sleeps of one round, none or the `k`-th interval, put in front of sleeps that follow on. */
  lemma SleepsFollowAfter(mine: seq<int>, theirs: seq<int>, s: SpinWaitStrategy, b: int, k: nat)
    requires k >= 1
    requires mine == [] || mine == [IntervalAt(s, b, k)]
    requires SleepsFollow(theirs, s, b, k + |mine|)
    ensures SleepsFollow(mine + theirs, s, b, k)
  {
    if mine == [] {
      assert mine + theirs == theirs;
    } else {
      assert (mine + theirs)[1..] == theirs;
    }
  }

  /** Events with no interrupted sleep at their end, put in front, keep an interrupt last. */
  lemma InterruptEndsAfter(u: seq<Event>, t: seq<Event>, ok: bool, flag: bool)
    requires u != [] && !(u[|u| - 1].Slept? && u[|u| - 1].interrupted)
    requires InterruptEnds(u, ok, flag) && InterruptEnds(t, ok, flag)
    ensures InterruptEnds(u + t, ok, flag)
  {
    var w := u + t;
    forall i | 0 <= i < |w| && w[i].Slept? && w[i].interrupted
      ensures i == |w| - 1 && !ok && flag
    {
      if i >= |u| {
        assert w[i] == t[i - |u|];
      }
    }
  }

  /** The events of a round, put in front of the rest of the loop's result. */
  function Then(evs: seq<Event>, rest: SpinResult): SpinResult {
    SpinResult(rest.ok, evs + rest.events, rest.last)
  }

  /** Putting two runs of events in front, one after the other, is putting their concatenation in front. */
  lemma ThenThen(a: seq<Event>, b: seq<Event>, rest: SpinResult)
    ensures Then(a, Then(b, rest)) == Then(a + b, rest)
  {
    assert a + (b + rest.events) == (a + b) + rest.events;
  }

  /** Appending a round's events to a trace that already ends with the earlier ones. */
  lemma Extend(t: seq<Event>, events: seq<Event>, more: seq<Event>)
    ensures t + (events + more) == (t + events) + more
  {
  }

  /** What a stopping round returns as the loop's result. */
  function Outcome(round: Round): SpinResult
    requires round.Stop?
  {
    SpinResult(round.ok, round.events, round.last)
  }

  /** How the loop result is made up of the first round and the rest. */
  lemma SpinUnfold(p: SpinParams, st: SpinState)
    requires st.clock <= p.deadline
    ensures SpinRound(p, st).Stop? ==> Spin(p, st) == Outcome(SpinRound(p, st))
    ensures SpinRound(p, st).Again? ==>
              Spin(p, st) == Then(SpinRound(p, st).events, Spin(p, SpinRound(p, st).next))
  {
  }

  /** A loop that has emitted `events` on its way from `start` to `cur`, and goes round again. */
  lemma GoOn(p: SpinParams, start: SpinState, events: seq<Event>, cur: SpinState)
    requires Spin(p, start) == Then(events, Spin(p, cur))
    requires cur.clock <= p.deadline && SpinRound(p, cur).Again?
    ensures Spin(p, start) == Then(events + SpinRound(p, cur).events, Spin(p, SpinRound(p, cur).next))
  {
    SpinUnfold(p, cur);
    ThenThen(events, SpinRound(p, cur).events, Spin(p, SpinRound(p, cur).next));
  }

  /** A loop that stops in the round started at `cur`. */
  lemma StopIn(p: SpinParams, start: SpinState, events: seq<Event>, cur: SpinState)
    requires Spin(p, start) == Then(events, Spin(p, cur))
    requires cur.clock <= p.deadline && SpinRound(p, cur).Stop?
    ensures var round := SpinRound(p, cur);
            Spin(p, start) == SpinResult(round.ok, events + round.events, round.last)
  {
    SpinUnfold(p, cur);
  }

  /** A loop whose clock has passed the deadline at `cur`. */
  lemma Expired(p: SpinParams, start: SpinState, events: seq<Event>, cur: SpinState)
    requires Spin(p, start) == Then(events, Spin(p, cur))
    requires cur.clock > p.deadline
    ensures Spin(p, start) == SpinResult(false, events, cur)
  {
    assert events + [] == events;
  }

  /** A successful call ends with the successful attempt, whose token the store now holds. */
  ghost predicate EndsHolding(p: SpinParams, r: SpinResult) {
    r.ok ==> && r.events != [] && r.events[|r.events| - 1].Acquire?
             && r.events[|r.events| - 1].acquired
             && p.key in r.last.records
             && r.last.records[p.key] == r.events[|r.events| - 1].token
  }

  /** Attempt `j` offers token `st.attempts + j`, within the deadline; only a final one succeeds. */
  ghost predicate AttemptsInOrder(p: SpinParams, st: SpinState, r: SpinResult) {
    && AttemptsFollow(Attempts(r.events), p, st.attempts, r.ok)
    && (r.ok ==> Attempts(r.events) != [])
  }

  /** The sleeps follow the strategy's schedule from where the interval stands; a zero base never sleeps. */
  ghost predicate SleepsOnSchedule(p: SpinParams, st: SpinState, r: SpinResult) {
    IntervalOnSchedule(p, st) ==>
      && SleepsFollow(Sleeps(r.events), StrategyOf(p.spin), Clamp(p.stepMs), st.slept + 1)
      && (Clamp(p.stepMs) == 0 ==> Sleeps(r.events) == [])
  }

  /** One attempt per round and at most one sleep; a cap of `m` allows `m` attempts and `m - 1` sleeps. */
  ghost predicate WithinCounts(p: SpinParams, st: SpinState, r: SpinResult) {
    && |Sleeps(r.events)| <= |Attempts(r.events)|
    && (p.spin.None? ==> |r.events| <= 1)
    && (p.spin.Some? && 0 < p.spin.value.maxAttempts && st.attempts < p.spin.value.maxAttempts ==>
          && st.attempts + |Attempts(r.events)| <= p.spin.value.maxAttempts
          && st.attempts + |Sleeps(r.events)| < p.spin.value.maxAttempts)
  }

  /** A failed call stopped for one of four reasons: the deadline, no configuration, the cap, an interrupt. */
  ghost predicate StoppedFor(p: SpinParams, st: SpinState, r: SpinResult) {
    !r.ok ==>
      || r.last.clock > p.deadline
      || p.spin.None?
      || (0 < p.spin.value.maxAttempts && st.attempts + |Attempts(r.events)| >= p.spin.value.maxAttempts)
      || (r.events != [] && r.events[|r.events| - 1].Slept? && r.events[|r.events| - 1].interrupted)
  }

  /** Everything the loop guarantees about its result `r` when started in `st`. */
  ghost predicate Guarantees(p: SpinParams, st: SpinState, r: SpinResult) {
    && EndsHolding(p, r)
    && AttemptsInOrder(p, st, r)
    && SleepsOnSchedule(p, st, r)
    && WithinCounts(p, st, r)
    && InterruptEnds(r.events, r.ok, r.last.flag)
    && StoppedFor(p, st, r)
  }

  // A round that stops: its own result meets each guarantee.

  lemma StopEndsHolding(p: SpinParams, st: SpinState)
    requires SpinRound(p, st).Stop?
    ensures EndsHolding(p, Outcome(SpinRound(p, st)))
  {
  }

  lemma StopAttemptsInOrder(p: SpinParams, st: SpinState)
    requires st.clock <= p.deadline && SpinRound(p, st).Stop?
    ensures AttemptsInOrder(p, st, Outcome(SpinRound(p, st)))
  {
    RoundShape(p, st);
  }

  lemma StopSleepsOnSchedule(p: SpinParams, st: SpinState)
    requires SpinRound(p, st).Stop?
    ensures SleepsOnSchedule(p, st, Outcome(SpinRound(p, st)))
  {
    var evs := SpinRound(p, st).events;
    var b := Clamp(p.stepMs);
    RoundShape(p, st);
    if IntervalOnSchedule(p, st) && |evs| == 2 {
      IntervalGrows(StrategyOf(p.spin), b, st.slept + 1);
      assert Sleeps(evs)[1..] == [];
    }
  }

  lemma StopWithinCounts(p: SpinParams, st: SpinState)
    requires SpinRound(p, st).Stop?
    ensures WithinCounts(p, st, Outcome(SpinRound(p, st)))
  {
    RoundShape(p, st);
    RoundStop(p, st);
  }

  lemma StopInterruptEnds(p: SpinParams, st: SpinState)
    requires SpinRound(p, st).Stop?
    ensures var r := Outcome(SpinRound(p, st)); InterruptEnds(r.events, r.ok, r.last.flag)
  {
    RoundShape(p, st);
    RoundStop(p, st);
  }

  lemma StopStoppedFor(p: SpinParams, st: SpinState)
    requires SpinRound(p, st).Stop?
    ensures StoppedFor(p, st, Outcome(SpinRound(p, st)))
  {
    RoundShape(p, st);
    RoundStop(p, st);
  }

  // A round that goes on: each guarantee of the rest of the loop carries over.

  lemma AgainEndsHolding(p: SpinParams, st: SpinState, rest: SpinResult)
    requires SpinRound(p, st).Again? && EndsHolding(p, rest)
    ensures EndsHolding(p, Then(SpinRound(p, st).events, rest))
  {
  }

  lemma AgainAttemptsInOrder(p: SpinParams, st: SpinState, rest: SpinResult)
    requires st.clock <= p.deadline && SpinRound(p, st).Again?
    requires AttemptsInOrder(p, SpinRound(p, st).next, rest)
    ensures AttemptsInOrder(p, st, Then(SpinRound(p, st).events, rest))
  {
    RoundShape(p, st);
    RoundAgain(p, st);
    var evs := SpinRound(p, st).events;
    FiltersConcat(evs, rest.events);
    assert Attempts(evs + rest.events)[1..] == Attempts(rest.events);
  }

  lemma AgainSleepsOnSchedule(p: SpinParams, st: SpinState, rest: SpinResult)
    requires SpinRound(p, st).Again?
    requires SleepsOnSchedule(p, SpinRound(p, st).next, rest)
    ensures SleepsOnSchedule(p, st, Then(SpinRound(p, st).events, rest))
  {
    var round := SpinRound(p, st);
    var s := StrategyOf(p.spin);
    var b := Clamp(p.stepMs);
    if IntervalOnSchedule(p, st) {
      var mine := Sleeps(round.events);
      assert round.next.slept == st.slept + |mine| && IntervalOnSchedule(p, round.next)
             && (mine == [] || (b > 0 && mine == [IntervalAt(s, b, st.slept + 1)])) by {
        RoundShape(p, st);
        RoundAgain(p, st);
        if b > 0 {
          IntervalGrows(s, b, st.slept + 1);
        }
      }
      assert Sleeps(round.events + rest.events) == mine + Sleeps(rest.events) by {
        FiltersConcat(round.events, rest.events);
      }
      SleepsFollowAfter(mine, Sleeps(rest.events), s, b, st.slept + 1);
    }
  }

  lemma AgainWithinCounts(p: SpinParams, st: SpinState, rest: SpinResult)
    requires SpinRound(p, st).Again?
    requires WithinCounts(p, SpinRound(p, st).next, rest)
    ensures WithinCounts(p, st, Then(SpinRound(p, st).events, rest))
  {
    RoundShape(p, st);
    RoundAgain(p, st);
    var evs := SpinRound(p, st).events;
    FiltersConcat(evs, rest.events);
    assert |Sleeps(evs + rest.events)| == |Sleeps(evs)| + |Sleeps(rest.events)|;
    assert |Attempts(evs + rest.events)| == 1 + |Attempts(rest.events)|;
  }

  lemma AgainInterruptEnds(p: SpinParams, st: SpinState, rest: SpinResult)
    requires SpinRound(p, st).Again?
    requires InterruptEnds(rest.events, rest.ok, rest.last.flag)
    ensures var r := Then(SpinRound(p, st).events, rest); InterruptEnds(r.events, r.ok, r.last.flag)
  {
    RoundShape(p, st);
    RoundAgain(p, st);
    var evs := SpinRound(p, st).events;
    InterruptEndsAfter(evs, rest.events, rest.ok, rest.last.flag);
  }

  lemma AgainStoppedFor(p: SpinParams, st: SpinState, rest: SpinResult)
    requires SpinRound(p, st).Again?
    requires StoppedFor(p, SpinRound(p, st).next, rest)
    ensures StoppedFor(p, st, Then(SpinRound(p, st).events, rest))
  {
    RoundShape(p, st);
    RoundAgain(p, st);
    var evs := SpinRound(p, st).events;
    FiltersConcat(evs, rest.events);
    assert |Attempts(evs + rest.events)| == 1 + |Attempts(rest.events)|;
    if rest.events != [] {
      assert (evs + rest.events)[|evs + rest.events| - 1] == rest.events[|rest.events| - 1];
    }
  }

  /** The loop's result, from any state, meets every guarantee. */
  lemma {:induction false} SpinGuarantees(p: SpinParams, st: SpinState)
    ensures Guarantees(p, st, Spin(p, st))
    decreases p.deadline - st.clock
  {
    if st.clock <= p.deadline {
      SpinUnfold(p, st);
      var round := SpinRound(p, st);
      if round.Stop? {
        StopEndsHolding(p, st);
        StopAttemptsInOrder(p, st);
        StopSleepsOnSchedule(p, st);
        StopWithinCounts(p, st);
        StopInterruptEnds(p, st);
        StopStoppedFor(p, st);
      } else {
        var rest := Spin(p, round.next);
        SpinGuarantees(p, round.next);
        AgainEndsHolding(p, st, rest);
        AgainAttemptsInOrder(p, st, rest);
        AgainSleepsOnSchedule(p, st, rest);
        AgainWithinCounts(p, st, rest);
        AgainInterruptEnds(p, st, rest);
        AgainStoppedFor(p, st, rest);
      }
    }
  }

  // What a whole waiting call, started in its start state, promises.

  /**
   * Attempt `j` of a call is for the call's key and lease, offers `tokens(j)`
   * and starts within the deadline; it succeeds exactly when it is the last
   * one and the call reports success, and a successful call made an attempt.
   */
  lemma SpinAttemptsFromStart(p: SpinParams, clock: int, records: Store, flag: bool)
    ensures var r := Spin(p, StartState(clock, records, flag, p.stepMs));
            var a := Attempts(r.events);
            && (r.ok ==> a != [])
            && forall j | 0 <= j < |a| ::
                 && a[j].Acquire? && a[j].key == p.key && a[j].leaseMs == p.leaseMs
                 && a[j].token == p.tokens(j) && a[j].at <= p.deadline
                 && (a[j].acquired <==> r.ok && j == |a| - 1)
  {
    var r := Spin(p, StartState(clock, records, flag, p.stepMs));
    SpinGuarantees(p, StartState(clock, records, flag, p.stepMs));
    forall j | 0 <= j < |Attempts(r.events)|
      ensures var a := Attempts(r.events);
              && a[j].Acquire? && a[j].key == p.key && a[j].leaseMs == p.leaseMs
              && a[j].token == p.tokens(j) && a[j].at <= p.deadline
              && (a[j].acquired <==> r.ok && j == |a| - 1)
    {
      AttemptsFollowAt(Attempts(r.events), p, 0, r.ok, j);
    }
  }

  /**
   * The sleeps of a call are the first sleeps of its strategy's schedule from
   * the clamped interval; with a zero interval the call never sleeps.
   */
  lemma SpinSleepsFromStart(p: SpinParams, clock: int, records: Store, flag: bool)
    ensures var r := Spin(p, StartState(clock, records, flag, p.stepMs));
            && Sleeps(r.events) == Schedule(StrategyOf(p.spin), Clamp(p.stepMs), |Sleeps(r.events)|)
            && (Clamp(p.stepMs) == 0 ==> Sleeps(r.events) == [])
  {
    var st := StartState(clock, records, flag, p.stepMs);
    var r := Spin(p, st);
    SpinGuarantees(p, st);
    assert IntervalOnSchedule(p, st);
    SleepsFollowSchedule(Sleeps(r.events), StrategyOf(p.spin), Clamp(p.stepMs), 1);
  }

  /**
   * A call makes at most one sleep per attempt, a single attempt without a
   * configuration, and with a cap of `m` at most `m` attempts and `m - 1` sleeps.
   */
  lemma SpinCountsFromStart(p: SpinParams, clock: int, records: Store, flag: bool)
    ensures var r := Spin(p, StartState(clock, records, flag, p.stepMs));
            && |Sleeps(r.events)| <= |Attempts(r.events)|
            && (p.spin.None? ==> |Attempts(r.events)| <= 1 && Sleeps(r.events) == [])
            && (p.spin.Some? && 0 < p.spin.value.maxAttempts ==>
                  && |Attempts(r.events)| <= p.spin.value.maxAttempts
                  && |Sleeps(r.events)| < p.spin.value.maxAttempts)
  {
    var r := Spin(p, StartState(clock, records, flag, p.stepMs));
    SpinGuarantees(p, StartState(clock, records, flag, p.stepMs));
  }

  /**
   * A failed call stopped because the deadline passed, because there is no
   * configuration, because exactly the capped number of attempts was made, or
   * because its last event is an interrupted sleep; a successful one ends
   * with its successful attempt, whose token the store holds for the key.
   */
  lemma SpinOutcomeFromStart(p: SpinParams, clock: int, records: Store, flag: bool)
    ensures var r := Spin(p, StartState(clock, records, flag, p.stepMs));
            && (!r.ok ==>
                  || r.last.clock > p.deadline
                  || p.spin.None?
                  || (0 < p.spin.value.maxAttempts && |Attempts(r.events)| == p.spin.value.maxAttempts)
                  || (r.events != [] && r.events[|r.events| - 1].Slept? && r.events[|r.events| - 1].interrupted))
            && (r.ok ==>
                  && r.events != [] && r.events[|r.events| - 1].Acquire?
                  && r.events[|r.events| - 1].acquired
                  && p.key in r.last.records
                  && r.last.records[p.key] == r.events[|r.events| - 1].token)
  {
    SpinGuarantees(p, StartState(clock, records, flag, p.stepMs));
  }

  /**
   * Only the last event of a call can be an interrupted sleep; the call then
   * fails and leaves the interrupt status set.
   */
  lemma SpinInterruptFromStart(p: SpinParams, clock: int, records: Store, flag: bool)
    ensures var r := Spin(p, StartState(clock, records, flag, p.stepMs));
            forall i | 0 <= i < |r.events| && r.events[i].Slept? && r.events[i].interrupted ::
              i == |r.events| - 1 && !r.ok && r.last.flag
  {
    SpinGuarantees(p, StartState(clock, records, flag, p.stepMs));
  }

  /**
   * A call that starts past its deadline makes no attempt and fails; one that
   * starts within it while the key is free takes the lock at the first attempt.
   */
  lemma SpinFirstRound(p: SpinParams, clock: int, records: Store, flag: bool)
    ensures var r := Spin(p, StartState(clock, records, flag, p.stepMs));
            && (clock > p.deadline ==> !r.ok && r.events == [])
            && (clock <= p.deadline && p.key !in records ==>
                  && r.ok && r.events == [Acquire(p.key, p.tokens(0), p.leaseMs, clock, true)]
                  && r.last.records == records[p.key := p.tokens(0)])
  {
  }
}
