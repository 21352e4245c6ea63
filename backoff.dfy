/**
 * The interval arithmetic of the spin-wait loop: the base interval taken
 * from the configuration, how each strategy grows it after a sleep, and the
 * closed forms of the resulting schedules.
 */
module Backoff {
  import opened Wrappers
  import opened LockConfig

  /** The configured interval in milliseconds, before clamping. */
  function RawIntervalMs(c: SpinWaitConfig): int {
    ToMillis(c.unit, c.interval)
  }

  /** The first sleep: `max(0, interval in ms)`, and 0 when there is no configuration. */
  function BaseIntervalMs(spin: Option<SpinWaitConfig>): (b: nat)
    ensures spin.None? ==> b == 0
    ensures spin.Some? ==> b >= RawIntervalMs(spin.value) && (b == 0 || b == RawIntervalMs(spin.value))
  {
    match spin
    case None => 0
    case Some(c) => if RawIntervalMs(c) > 0 then RawIntervalMs(c) else 0
  }

  /** The interval after a sleep of `cur`: unchanged, plus the step, or doubled. */
  function NextInterval(s: SpinWaitStrategy, cur: int, step: int): int {
    match s
    case FIXED => cur
    case LINEAR => cur + step
    case EXPONENTIAL => cur * 2
  }

  /** The length of the `k`-th sleep (counting from 1) when the first lasts `b`. */
  function IntervalAt(s: SpinWaitStrategy, b: int, k: nat): int
    requires k >= 1
  {
    if k == 1 then b else NextInterval(s, IntervalAt(s, b, k - 1), b)
  }

  function Pow2(n: nat): (p: nat)
    ensures p >= 1
  {
    if n == 0 then 1 else 2 * Pow2(n - 1)
  }

  /** The closed form the strategy names promise for the `k`-th sleep. */
  function ClosedForm(s: SpinWaitStrategy, b: int, k: nat): int
    requires k >= 1
  {
    match s
    case FIXED => b
    case LINEAR => k * b
    case EXPONENTIAL => b * Pow2(k - 1)
  }

  /** FIXED sleeps `b` every time, LINEAR `k * b`, EXPONENTIAL `b * 2^(k-1)`. */
  lemma {:induction false} IntervalClosedForm(s: SpinWaitStrategy, b: int, k: nat)
    requires k >= 1
    ensures IntervalAt(s, b, k) == ClosedForm(s, b, k)
    decreases k
  {
    if k > 1 {
      IntervalClosedForm(s, b, k - 1);
      match s
      case FIXED =>
      case LINEAR =>
        assert (k - 1) * b + b == k * b;
      case EXPONENTIAL =>
        assert b * Pow2(k - 2) * 2 == b * Pow2(k - 1);
    }
  }

  /** A zero base interval stays zero under every strategy. */
  lemma {:induction false} ZeroIntervalStaysZero(s: SpinWaitStrategy, k: nat)
    requires k >= 1
    ensures IntervalAt(s, 0, k) == 0
    decreases k
  {
    if k > 1 {
      ZeroIntervalStaysZero(s, k - 1);
    }
  }

  /** A positive base interval never shrinks and never reaches zero. */
  lemma {:induction false} IntervalGrows(s: SpinWaitStrategy, b: int, k: nat)
    requires b > 0 && k >= 1
    ensures b <= IntervalAt(s, b, k) <= IntervalAt(s, b, k + 1)
    decreases k
  {
    if k > 1 {
      IntervalGrows(s, b, k - 1);
    }
  }

  /** The first `n` sleeps. */
  function Schedule(s: SpinWaitStrategy, b: int, n: nat): (r: seq<int>)
    ensures |r| == n
  {
    if n == 0 then [] else Schedule(s, b, n - 1) + [IntervalAt(s, b, n)]
  }

  /** Sleep `i` of a schedule (counting from 0) is the strategy's interval number `i + 1`. */
  lemma {:induction false} ScheduleAt(s: SpinWaitStrategy, b: int, n: nat, i: nat)
    requires i < n
    ensures Schedule(s, b, n)[i] == IntervalAt(s, b, i + 1)
    decreases n
  {
    if i < n - 1 {
      ScheduleAt(s, b, n - 1, i);
    }
  }

  /** The schedules for a 100 ms base interval: 100,100,..., 100,200,300,... and 100,200,400,800,... */
  lemma ScheduleExamples()
    ensures Schedule(FIXED, 100, 4) == [100, 100, 100, 100]
    ensures Schedule(LINEAR, 100, 4) == [100, 200, 300, 400]
    ensures Schedule(EXPONENTIAL, 100, 4) == [100, 200, 400, 800]
  {
    IntervalClosedForm(LINEAR, 100, 4);
    IntervalClosedForm(EXPONENTIAL, 100, 4);
  }

  /** With the annotation's default parameters the loop has no interval to sleep. */
  lemma DefaultSpinNeverSleeps()
    ensures BaseIntervalMs(Some(SpinConfigOf(DefaultSpinWaitTimeParam))) == 0
  {
  }
}
