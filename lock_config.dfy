/**
 * The configuration values of the lock: `java.util.concurrent.TimeUnit`
 * conversions, the back-off strategy, the spin-wait configuration and the
 * `@Lock` / `@SpinWaitTimeParam` annotations with their defaults.
 */
module LockConfig {

  /** Java's `/` on integers truncates toward zero (Dafny's is Euclidean). */
  function JavaDiv(a: int, b: int): (q: int)
    requires b > 0
    ensures a >= 0 ==> 0 <= q * b <= a < q * b + b
    ensures a < 0 ==> q * b - b < a <= q * b <= 0
  {
    if a >= 0 then
      DivBounds(a, b);
      a / b
    else
      var q := (-a) / b;
      DivBounds(-a, b);
      assert (-q) * b == -(q * b);
      -q
  }

  /** Euclidean division of a non-negative number leaves a remainder below the divisor. */
  lemma DivBounds(n: int, b: int)
    requires n >= 0 && b > 0
    ensures 0 <= (n / b) * b <= n < (n / b) * b + b
  {
    var q, r := n / b, n % b;
    assert n == q * b + r && 0 <= r < b;
    MulSign(q, b);
  }

  /** A whole multiple of a positive number is zero or at least that number away from zero. */
  lemma MulSign(x: int, b: int)
    requires b > 0
    ensures x >= 1 ==> x * b >= b
    ensures x == 0 ==> x * b == 0
    ensures x <= -1 ==> x * b <= -b
  {
    if x >= 1 {
      MulNonnegative(x - 1, b);
      assert (x - 1) * b == x * b - b;
    } else if x <= -1 {
      MulNonnegative(-x - 1, b);
      assert (-x - 1) * b == -(x * b) - b;
    }
  }

  datatype TimeUnit =
    | NANOSECONDS
    | MICROSECONDS
    | MILLISECONDS
    | SECONDS
    | MINUTES
    | HOURS
    | DAYS

  /** Nanoseconds in one unit. */
  function NanosPer(u: TimeUnit): nat {
    match u
    case NANOSECONDS => 1
    case MICROSECONDS => 1_000
    case MILLISECONDS => 1_000_000
    case SECONDS => 1_000_000_000
    case MINUTES => 60_000_000_000
    case HOURS => 3_600_000_000_000
    case DAYS => 86_400_000_000_000
  }

  /**
   * `u.toNanos(d)`, equivalently `TimeUnit.NANOSECONDS.convert(d, u)`: a unit
   * is at least a nanosecond, so a duration keeps its sign and never shrinks.
   */
  function ToNanos(u: TimeUnit, d: int): (r: int)
    ensures u == NANOSECONDS ==> r == d
    ensures d > 0 ==> r >= d
    ensures d < 0 ==> r <= d
    ensures d == 0 ==> r == 0
  {
    d * NanosPer(u)
  }

  /**
   * `u.toMillis(d)`: units finer than a millisecond divide, truncating toward
   * zero. The result is positive exactly when the duration is at least one
   * millisecond, and it keeps the duration's sign.
   */
  function ToMillis(u: TimeUnit, d: int): (r: int)
    ensures u == MILLISECONDS ==> r == d
    ensures r > 0 <==> d * NanosPer(u) >= 1_000_000
    ensures d >= 0 ==> r >= 0
    ensures d <= 0 ==> r <= 0
  {
    match u
    case NANOSECONDS => JavaDiv(d, 1_000_000)
    case MICROSECONDS => assert d * NanosPer(u) == d * 1_000; JavaDiv(d, 1_000)
    case MILLISECONDS => d
    case SECONDS => d * 1_000
    case MINUTES => d * 60_000
    case HOURS => d * 3_600_000
    case DAYS => d * 86_400_000
  }

  /** Dividing by a multiple of a divisor after scaling by that multiple changes nothing. */
  lemma DivScaled(n: nat, k: nat, m: nat)
    requires k > 0 && m > 0
    ensures (n * k) / (k * m) == n / m
  {
    var q, r := n / m, n % m;
    assert n == q * m + r && 0 <= r < m;
    ScaleQuotient(q, m, r, k);
    DivUnique(n * k, k * m, q, r * k);
  }

  /** Scaling `q * m + r` by `k` scales the remainder and the divisor alike. */
  lemma ScaleQuotient(q: int, m: int, r: int, k: int)
    requires k > 0 && 0 <= r < m
    ensures (q * m + r) * k == q * (k * m) + r * k
    ensures 0 <= r * k < k * m
  {
    MulNonnegative(r, k);
    MulNonnegative(m - r - 1, k);
    assert (m - r - 1) * k == k * m - r * k - k;
  }

  lemma DivUnique(n: int, d: int, q: int, r: int)
    requires d > 0 && n == q * d + r && 0 <= r < d
    ensures n / d == q
  {
    var q', r' := n / d, n % d;
    assert n == q' * d + r' && 0 <= r' < d;
    var e := q' - q;
    assert e * d == r - r' by {
      assert q' * d - q * d == e * d;
    }
    MulSign(e, d);
  }

  lemma MulNonnegative(a: int, b: int)
    requires a >= 0 && b >= 0
    ensures a * b >= 0
  {
  }

  /** Truncating division undoes multiplication. */
  lemma JavaDivExact(x: int, b: int)
    requires b > 0
    ensures JavaDiv(x * b, b) == x
  {
    if x >= 0 {
      MulNonnegative(x, b);
      DivUnique(x * b, b, x, 0);
    } else {
      MulNonnegative(-x, b);
      assert -(x * b) == (-x) * b;
      DivUnique((-x) * b, b, -x, 0);
    }
  }

  /** Scaling the dividend and the divisor by the same factor leaves a truncating quotient unchanged. */
  lemma JavaDivScaled(d: int, k: nat, m: nat)
    requires k > 0 && m > 0
    ensures JavaDiv(d * k, k * m) == JavaDiv(d, m)
  {
    var a := if d >= 0 then d else -d;
    MulNonnegative(a, k);
    assert (if d * k >= 0 then d * k else -(d * k)) == a * k;
    DivScaled(a, k, m);
  }

  /** The two conversions agree: milliseconds are nanoseconds divided by a million, truncated. */
  lemma ToMillisAgreesWithToNanos(u: TimeUnit, d: int)
    ensures ToMillis(u, d) == JavaDiv(ToNanos(u, d), 1_000_000)
  {
    match u
    case NANOSECONDS =>
    case MICROSECONDS =>
      JavaDivScaled(d, 1_000, 1_000);
    case MILLISECONDS =>
      JavaDivExact(d, 1_000_000);
    case SECONDS =>
      assert ToNanos(u, d) == (d * 1_000) * 1_000_000;
      JavaDivExact(d * 1_000, 1_000_000);
    case MINUTES =>
      assert ToNanos(u, d) == (d * 60_000) * 1_000_000;
      JavaDivExact(d * 60_000, 1_000_000);
    case HOURS =>
      assert ToNanos(u, d) == (d * 3_600_000) * 1_000_000;
      JavaDivExact(d * 3_600_000, 1_000_000);
    case DAYS =>
      assert ToNanos(u, d) == (d * 86_400_000) * 1_000_000;
      JavaDivExact(d * 86_400_000, 1_000_000);
  }

  /** A conversion never turns a non-negative duration negative. */
  lemma ConversionsKeepSign(u: TimeUnit, d: int)
    requires d >= 0
    ensures ToNanos(u, d) >= 0 && ToMillis(u, d) >= 0
  {
  }

  /** How the sleep interval grows between attempts. */
  datatype SpinWaitStrategy = FIXED | LINEAR | EXPONENTIAL

  /** The spin-wait configuration handed to the waiting `tryLock`. */
  datatype SpinWaitConfig = SpinWaitConfig(
    interval: int,
    maxAttempts: int,
    strategy: SpinWaitStrategy,
    unit: TimeUnit)

  /** The `@SpinWaitTimeParam` annotation. */
  datatype SpinWaitTimeParam = SpinWaitTimeParam(
    interval: int,
    maxAttempts: int,
    strategy: SpinWaitStrategy,
    timeUnit: TimeUnit)

  /** `@SpinWaitTimeParam()` with every element left at its default. */
  const DefaultSpinWaitTimeParam := SpinWaitTimeParam(0, 0, FIXED, MILLISECONDS)

  /** The `@Lock` annotation. */
  datatype Lock = Lock(
    prefix: string,
    delimiter: string,
    expireTime: int,
    waitTime: int,
    timeUnit: TimeUnit,
    spinWaitTimeParam: SpinWaitTimeParam,
    keys: seq<string>)

  /** `@Lock` with the given key expressions and every other element at its default. */
  function DefaultLock(keys: seq<string>): (l: Lock)
    ensures l.prefix == "dl" && l.delimiter == ":"
    ensures l.expireTime == 10 && l.waitTime == 3 && l.timeUnit == SECONDS
    ensures l.spinWaitTimeParam == DefaultSpinWaitTimeParam && l.keys == keys
  {
    Lock("dl", ":", 10, 3, SECONDS, DefaultSpinWaitTimeParam, keys)
  }

  /** The configuration the interception layer builds from the annotation. */
  function SpinConfigOf(p: SpinWaitTimeParam): (c: SpinWaitConfig)
    ensures c.interval == p.interval && c.maxAttempts == p.maxAttempts
    ensures c.strategy == p.strategy && c.unit == p.timeUnit
  {
    SpinWaitConfig(p.interval, p.maxAttempts, p.strategy, p.timeUnit)
  }
}
