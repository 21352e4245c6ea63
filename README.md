# Redis distributed lock: a Dafny model

This project models the core of a Redis-backed distributed lock for Spring
methods annotated with `@Lock`. It has three parts.

- **The lock client** (`RedisDistributedLockClient`). A single attempt makes
  a fresh token and sends one `SET key token PX lease NX` to the store. On
  success it records `key -> token` in the client's ownership table.
  `unlock` removes the local token. If there was one, it runs a Lua script
  that deletes the record only when the record still holds that token. The
  waiting `tryLock` loops. It checks a deadline on the `nanoTime` clock,
  counts attempts against a cap, and sleeps an interval that stays the same
  (FIXED), grows by the base (LINEAR) or doubles (EXPONENTIAL).
- **The key builder** (`KeyResolver.buildKey`). The key is the annotation's
  delimiter joining three groups, in this order: the prefix when it is not
  blank, the parts taken from tagged parameters and tagged fields, and the
  parts the key expressions yield.
- **The interception wrapper** (`DistributedLockAspect.around`). It builds
  the key once and acquires with the single or the waiting overload. If
  acquisition fails it throws without running the method. Otherwise it runs
  the method and always unlocks.

Layout, one module per file:

- `wrappers.dfy`: `Option`, which stands for Java's `null`.
- `lock_config.dfy`: `TimeUnit` conversions, `SpinWaitStrategy`,
  `SpinWaitConfig`, and the `@Lock` and `@SpinWaitTimeParam` annotations
  with their defaults.
- `backoff.dfy`: interval arithmetic and its closed forms.
- `redis_store.dfy`: the store as `map<string, string>`. Set-if-absent and
  the release script are functions. A `Server` object is shared by clients.
- `spin_spec.dfy`: the waiting loop as a function (`Spin`, built from
  `SpinRound`), and what it guarantees.
- `lock_client.dfy`: the client class. Its methods are proved against
  `spin_spec.dfy` and `redis_store.dfy`.
- `java_text.dfy`: `String.trim`, `String.join`, `split("\\.")`, and
  decimal rendering.
- `key_resolver.dfy`: the value model, the key as a function (`KeyOf`),
  and the looping methods proved equal to it.
- `key_properties.dfy`: the ordering, skipping and binding rules.
- `key_examples.dfy`: the four keys the unit tests expect.
- `lock_aspect.dfy`: the wrapper.

The outside world is passed in as inputs:

- The `UUID`s are a token supply `tokens: nat -> string`. Attempt `j` of a
  call offers `tokens(j)`.
- `System.nanoTime()` is the client's `clock` field. A store round trip
  advances it by a positive constant. A sleep advances it by the requested
  time plus a lag that the world chooses.
- How each sleep ends is a `Wake` supplied by the caller. It says whether
  the thread was interrupted, how late it woke, and what other processes
  (and lease expiry) left in the store in the meantime.
- The expression language and `readProperty` are the two functions of an
  `Interpreter`, left uninterpreted. `null`, or an exception, is `None`.

## Model

| member | source | states |
|---|---|---|
| `RedisStore.Get` | distributed-lock-redis-spring/src/main/java/com/github/chengtang/dlock/redis/RedisDistributedLockClient.java:21 | `GET` answers a value exactly when the key has a record, and that value is the record's. |
| `RedisStore.Del` | distributed-lock-redis-spring/src/main/java/com/github/chengtang/dlock/redis/RedisDistributedLockClient.java:22 | `DEL` removes the key and answers 1 if there was a record, else 0. |
| `RedisStore.SetIfAbsent` | distributed-lock-redis-spring/src/main/java/com/github/chengtang/dlock/redis/RedisDistributedLockClient.java:39-40 | Set-if-absent succeeds iff the key had no record. On success the record maps the key to the new token. On failure the store is unchanged. |
| `RedisStore.ReleaseScript` | distributed-lock-redis-spring/src/main/java/com/github/chengtang/dlock/redis/RedisDistributedLockClient.java:20-23 | The release script answers 1 and deletes the record iff the record holds the given token. Otherwise it answers 0 and changes nothing. |
| `RedisStore.MutualExclusion` | distributed-lock-redis-spring/src/main/java/com/github/chengtang/dlock/redis/RedisDistributedLockClient.java:39-40 | Once a set-if-absent has succeeded, a second one for the same key fails whatever token it offers, and the first token stays. |
| `RedisStore.AcquireThenRelease` | distributed-lock-redis-spring/src/main/java/com/github/chengtang/dlock/redis/RedisDistributedLockClient.java:20-23 | Acquiring a free key and then releasing with the same token restores the store exactly, and the script answers 1. |
| `RedisStore.ReleaseTwice` | distributed-lock-redis-spring/src/main/java/com/github/chengtang/dlock/redis/RedisDistributedLockClient.java:20-23 | A second release with the same token finds nothing, answers 0 and changes nothing. |
| `RedisStore.StaleReleaseKeepsNewHolder` | distributed-lock-redis-spring/src/main/java/com/github/chengtang/dlock/redis/RedisDistributedLockClient.java:20-23 | Suppose a lease expired and another token re-acquired the key. A release with the old token then leaves the new holder's record intact. |
| `RedisStore.ReleaseIsLocal` | distributed-lock-redis-spring/src/main/java/com/github/chengtang/dlock/redis/RedisDistributedLockClient.java:20-23 | The release script leaves every other key as it was. |
| `RedisStore.Server.SetIfAbsentCommand` | distributed-lock-redis-spring/src/main/java/com/github/chengtang/dlock/redis/RedisDistributedLockClient.java:39-40 | The server's set-if-absent command: its reply and the new records follow `SetIfAbsent`. |
| `RedisStore.Server.EvalRelease` | distributed-lock-redis-spring/src/main/java/com/github/chengtang/dlock/redis/RedisDistributedLockClient.java:101 | Evaluating the release script on the server: its answer and the new records follow `ReleaseScript`. |
| `RedisStore.Server.Expire` | distributed-lock-redis-spring/src/main/java/com/github/chengtang/dlock/redis/RedisDistributedLockClient.java:40 | A lease running out removes exactly that key's record. |
| `RedisStore.Server.Interleave` | distributed-lock-redis-spring/src/main/java/com/github/chengtang/dlock/redis/RedisDistributedLockClient.java:70-75 | Other processes act while this thread sleeps, leaving the records the world chose. |
| `LockClient.IsAcquired` | distributed-lock-redis-spring/src/main/java/com/github/chengtang/dlock/redis/RedisDistributedLockClient.java:39 | A null or `false` reply counts as busy. Only `true` counts as acquired. |
| `LockClient.RedisLockClient.constructor` | distributed-lock-redis-spring/src/main/java/com/github/chengtang/dlock/redis/RedisDistributedLockClient.java:27-34 | A new client starts with an empty ownership table and no recorded events. |
| `LockClient.RedisLockClient.TryLock` | distributed-lock-redis-spring/src/main/java/com/github/chengtang/dlock/redis/RedisDistributedLockClient.java:37-53 | Returns true iff the store had no record for the key. On success the store and the ownership table both map the key to the fresh token. On failure neither changes. One round trip is logged. |
| `LockClient.RedisLockClient.Sleep` | distributed-lock-redis-spring/src/main/java/com/github/chengtang/dlock/redis/RedisDistributedLockClient.java:70-75 | A sleep is interrupted when the thread's interrupt status was already set or the world interrupts it, and the status ends up cleared. Otherwise the clock advances by the requested milliseconds plus the lag. |
| `LockClient.RedisLockClient.SpinOnce` | distributed-lock-redis-spring/src/main/java/com/github/chengtang/dlock/redis/RedisDistributedLockClient.java:61-84 | One pass of the loop body is exactly one round of `SpinRound`: the attempt; then, with a configuration, the cap check, the sleep and the interval update. On an interrupt it sets the interrupt status again and stops. |
| `LockClient.RedisLockClient.TryLockSpin` | distributed-lock-redis-spring/src/main/java/com/github/chengtang/dlock/redis/RedisDistributedLockClient.java:56-90 | The waiting call's verdict, events, clock, store and interrupt status are those of `Spin` from the start state. On success the ownership table maps the key to the token the store holds. On failure the table is unchanged. |
| `LockClient.RedisLockClient.SpinLoop` | distributed-lock-redis-spring/src/main/java/com/github/chengtang/dlock/redis/RedisDistributedLockClient.java:60-89 | The `while (nanoTime() <= deadline)` loop computes `Spin`. Its invariant is that the events emitted so far, followed by `Spin` from the current state, equal `Spin` from the start. |
| `LockClient.RedisLockClient.Unlock` | distributed-lock-redis-spring/src/main/java/com/github/chengtang/dlock/redis/RedisDistributedLockClient.java:93-105 | Always removes the local entry. Without a local token it makes no store call and changes nothing else. With token t it runs the release script, which deletes the record only if the record holds t. |
| `LockClient.UnlockTwice` | distributed-lock-redis-spring/src/main/java/com/github/chengtang/dlock/redis/RedisDistributedLockClient.java:93-101 | Calling `unlock` twice in a row has the effect of calling it once. The second call makes no store call. |
| `SpinSpec.SpinRound` | distributed-lock-redis-spring/src/main/java/com/github/chengtang/dlock/redis/RedisDistributedLockClient.java:61-84 | A round that goes on has moved the clock forward, so the loop terminates once the deadline passes. |
| `SpinSpec.Spin` | distributed-lock-redis-spring/src/main/java/com/github/chengtang/dlock/redis/RedisDistributedLockClient.java:60-89 | The whole loop as a function of its parameters and start state. It makes no attempt iff it starts past the deadline; otherwise its first event is an attempt at the start time with the current token, succeeding iff the key was free. The clock never runs backwards, and a successful call ends with the key in the store. |
| `SpinSpec.Clamp` | distributed-lock-redis-spring/src/main/java/com/github/chengtang/dlock/redis/RedisDistributedLockClient.java:59 | `Math.max(0, step)`: never negative, and either 0 or the step. |
| `SpinSpec.BaseIsClampedStep` | distributed-lock-redis-spring/src/main/java/com/github/chengtang/dlock/redis/RedisDistributedLockClient.java:59 | The first interval is the clamped configured interval, and 0 without a configuration. |
| `SpinSpec.SpinGuarantees` | distributed-lock-redis-spring/src/main/java/com/github/chengtang/dlock/redis/RedisDistributedLockClient.java:56-90 | From any state, the loop's result meets every guarantee below. This is proved by induction over the rounds. |
| `SpinSpec.SpinAttemptsFromStart` | distributed-lock-redis-spring/src/main/java/com/github/chengtang/dlock/redis/RedisDistributedLockClient.java:60-62 | Attempt j is for the call's key and lease and offers token j. It starts no later than the deadline. It succeeds iff it is the last attempt and the call returns true. A successful call made at least one attempt. |
| `SpinSpec.SpinSleepsFromStart` | distributed-lock-redis-spring/src/main/java/com/github/chengtang/dlock/redis/RedisDistributedLockClient.java:69-80 | The sleeps are the first sleeps of the strategy's schedule from the clamped base interval. With a zero base interval the call never sleeps. |
| `SpinSpec.SpinCountsFromStart` | distributed-lock-redis-spring/src/main/java/com/github/chengtang/dlock/redis/RedisDistributedLockClient.java:64-68 | There is at most one sleep per attempt. Without a configuration there is at most one attempt and no sleep. With a cap m > 0 there are at most m attempts and at most m - 1 sleeps. |
| `SpinSpec.SpinOutcomeFromStart` | distributed-lock-redis-spring/src/main/java/com/github/chengtang/dlock/redis/RedisDistributedLockClient.java:56-89 | A failed call stopped for one of four reasons: the clock passed the deadline, there is no configuration, the cap was reached exactly, or the last event is an interrupted sleep. A successful call ends with its successful attempt, whose token the store holds. |
| `SpinSpec.SpinInterruptFromStart` | distributed-lock-redis-spring/src/main/java/com/github/chengtang/dlock/redis/RedisDistributedLockClient.java:70-75 | Only the last event can be an interrupted sleep. The call then returns false and leaves the interrupt status set. |
| `SpinSpec.SpinFirstRound` | distributed-lock-redis-spring/src/main/java/com/github/chengtang/dlock/redis/RedisDistributedLockClient.java:57-62 | A call that starts past its deadline makes no attempt and fails. A call that starts within the deadline on a free key acquires at its first attempt with token 0. |
| `Backoff.BaseIntervalMs` | distributed-lock-redis-spring/src/main/java/com/github/chengtang/dlock/redis/RedisDistributedLockClient.java:59 | The first interval is `max(0, interval in ms)`, and 0 when there is no configuration. |
| `Backoff.IntervalClosedForm` | distributed-lock-redis-spring/src/main/java/com/github/chengtang/dlock/redis/RedisDistributedLockClient.java:76-80 | Sleep k lasts b under FIXED, k * b under LINEAR and b * 2^(k-1) under EXPONENTIAL. |
| `Backoff.ZeroIntervalStaysZero` | distributed-lock-redis-spring/src/main/java/com/github/chengtang/dlock/redis/RedisDistributedLockClient.java:69-80 | A zero base interval stays zero under every strategy. |
| `Backoff.IntervalGrows` | distributed-lock-redis-spring/src/main/java/com/github/chengtang/dlock/redis/RedisDistributedLockClient.java:76-80 | A positive base interval never shrinks and never reaches zero. |
| `Backoff.ScheduleExamples` | distributed-lock-redis-spring/src/main/java/com/github/chengtang/dlock/redis/RedisDistributedLockClient.java:76-80 | With a 100 ms base the schedules are 100,100,100,100 (FIXED), 100,200,300,400 (LINEAR) and 100,200,400,800 (EXPONENTIAL). |
| `Backoff.DefaultSpinNeverSleeps` | distributed-lock-redis-spring/src/main/java/com/github/chengtang/dlock/annotation/SpinWaitTimeParam.java:14-20 | With the annotation's default spin parameters the loop has no interval to sleep. |
| `LockConfig.ToNanos` | distributed-lock-redis-spring/src/main/java/com/github/chengtang/dlock/redis/RedisDistributedLockClient.java:57 | `TimeUnit.NANOSECONDS.convert(d, u)`: the identity on nanoseconds. Otherwise it keeps the sign and never shrinks a duration, since every unit is at least a nanosecond. |
| `LockConfig.ToMillis` | distributed-lock-redis-spring/src/main/java/com/github/chengtang/dlock/redis/RedisDistributedLockClient.java:40 | `unit.toMillis(d)` truncates toward zero. It is the identity on milliseconds and keeps the sign. It is positive exactly when the duration is at least one millisecond, so a shorter or non-positive lease gives a lease of at most 0 ms. |
| `LockConfig.JavaDiv` | distributed-lock-redis-spring/src/main/java/com/github/chengtang/dlock/redis/RedisDistributedLockClient.java:59 | Java's truncating integer division, stated by its bounds for both signs. |
| `LockConfig.ToMillisAgreesWithToNanos` | distributed-lock-redis-spring/src/main/java/com/github/chengtang/dlock/redis/RedisDistributedLockClient.java:57-59 | `toMillis` equals `toNanos` divided by a million with truncation, for every unit. |
| `LockConfig.ConversionsKeepSign` | distributed-lock-redis-spring/src/main/java/com/github/chengtang/dlock/redis/RedisDistributedLockClient.java:57 | Converting a non-negative duration never yields a negative one. |
| `LockConfig.DefaultLock` | distributed-lock-redis-spring/src/main/java/com/github/chengtang/dlock/annotation/Lock.java:19-31 | The `@Lock` defaults: prefix `dl`, delimiter `:`, expire 10, wait 3, seconds, and the default spin parameters. |
| `LockConfig.SpinConfigOf` | distributed-lock-redis-spring/src/main/java/com/github/chengtang/dlock/aop/DistributedLockAspect.java:30-31 | The spin configuration copies the annotation's interval, cap, strategy and unit. |
| `KeyProperties.SimpleValueParts` | distributed-lock-redis-spring/src/main/java/com/github/chengtang/dlock/core/KeyResolver.java:155-162 | `isSimple` decides how a value contributes. A simple value has no field parts: untagged it adds nothing, and tagged with an empty path it adds its string form. A compound value adds its tagged fields either way. Arrays are never simple. |
| `KeyResolver.Sanitize` | distributed-lock-redis-spring/src/main/java/com/github/chengtang/dlock/core/KeyResolver.java:164-166 | A null path is empty. Any other path has its leading and trailing spaces removed. |
| `KeyResolver.ExtractAnnotatedFields` | distributed-lock-redis-spring/src/main/java/com/github/chengtang/dlock/core/KeyResolver.java:123-153 | The loop over declared fields yields `AnnotatedFields`: nothing for null or simple values, otherwise each tagged field's part in declaration order. |
| `KeyResolver.ExtractKeyParams` | distributed-lock-redis-spring/src/main/java/com/github/chengtang/dlock/core/KeyResolver.java:94-121 | The loop over parameters yields `ParamParts`, each parameter's contribution in declared order. |
| `KeyResolver.BindVariables` | distributed-lock-redis-spring/src/main/java/com/github/chengtang/dlock/core/KeyResolver.java:33-51 | The binding loops build `VariableBag`: declared names, then `p{i}`, `a{i}` and `arg{i}`, then `args`. |
| `KeyResolver.FallbackPart` | distributed-lock-redis-spring/src/main/java/com/github/chengtang/dlock/core/KeyResolver.java:63-81 | The fallback loop looks up the first dotted token and walks the rest. It stops at the first null, as `Fallback` states. |
| `KeyResolver.CollectKeyPart` | distributed-lock-redis-spring/src/main/java/com/github/chengtang/dlock/core/KeyResolver.java:54-83 | One key expression updates the collected parts as `KeyStep` states. |
| `KeyResolver.BuildKey` | distributed-lock-redis-spring/src/main/java/com/github/chengtang/dlock/core/KeyResolver.java:26-92 | `buildKey` returns `KeyOf`: the delimiter joining the prefix part, the parameter parts and the expression parts. |
| `KeyProperties.ParamPartsConcat` | distributed-lock-redis-spring/src/main/java/com/github/chengtang/dlock/core/KeyResolver.java:97-119 | Parameters contribute in declared order: the parts of two runs of parameters are the first run's, then the second's. |
| `KeyProperties.NullArgumentContributesNothing` | distributed-lock-redis-spring/src/main/java/com/github/chengtang/dlock/core/KeyResolver.java:103 | A null argument contributes nothing, tagged or not. Removing its parameter leaves the parts unchanged. |
| `KeyProperties.TaggedSimpleArguments` | distributed-lock-redis-spring/src/main/java/com/github/chengtang/dlock/core/KeyResolver.java:104-106 | Simple arguments of parameters tagged with an empty path contribute their string forms, in order. |
| `KeyProperties.UntaggedFieldsIgnored` | distributed-lock-redis-spring/src/main/java/com/github/chengtang/dlock/core/KeyResolver.java:127-129 | A value's field parts are exactly those of its tagged fields, at most one part per field. |
| `KeyProperties.PlainTaggedFields` | distributed-lock-redis-spring/src/main/java/com/github/chengtang/dlock/core/KeyResolver.java:135-143 | Tagged fields with an empty path and a non-null value contribute their values' string forms, in declaration order. |
| `KeyProperties.IndexNamesDistinct` | distributed-lock-redis-spring/src/main/java/com/github/chengtang/dlock/core/KeyResolver.java:43-45 | The names `p{i}`, `a{i}` and `arg{i}` are pairwise different across arguments and prefixes, so no index binding overwrites another. |
| `KeyProperties.VariableBagBinds` | distributed-lock-redis-spring/src/main/java/com/github/chengtang/dlock/core/KeyResolver.java:33-51 | The variables bind `args` to the whole array and argument i under `p{i}`, `a{i}` and `arg{i}`. A declared name is bound to its own argument unless it is reserved or a later parameter repeats it. |
| `KeyProperties.WalkConcat` | distributed-lock-redis-spring/src/main/java/com/github/chengtang/dlock/core/KeyResolver.java:72-76 | Walking a dotted path in two halves equals walking the first half and then, unless it gave null, the second. |
| `KeyProperties.ExprPartsConcat` | distributed-lock-redis-spring/src/main/java/com/github/chengtang/dlock/core/KeyResolver.java:53 | Key expressions are processed left to right, each step on the parts collected so far. |
| `KeyProperties.BlankKeyIgnored` | distributed-lock-redis-spring/src/main/java/com/github/chengtang/dlock/core/KeyResolver.java:54 | A blank key expression adds nothing, wherever it stands. |
| `KeyProperties.ExprPartsExtend` | distributed-lock-redis-spring/src/main/java/com/github/chengtang/dlock/core/KeyResolver.java:58-60 | Expression parts are only ever appended, never removed or reordered. |
| `KeyProperties.FallbackWalksVariable` | distributed-lock-redis-spring/src/main/java/com/github/chengtang/dlock/core/KeyResolver.java:63-81 | Suppose nothing has been collected and `#name.p1....pn` fails to evaluate. The fallback then reads variable `name` along `p1 ... pn` and adds the string form of the result. It adds nothing if the variable is unbound or null, or if any step reads null. |
| `KeyProperties.NoFallbackOnceCollected` | distributed-lock-redis-spring/src/main/java/com/github/chengtang/dlock/core/KeyResolver.java:63 | The fallback guard looks at the whole list. Once any part has been collected, later expressions add only their evaluated non-null values. |
| `KeyProperties.AllEvaluated` | distributed-lock-redis-spring/src/main/java/com/github/chengtang/dlock/core/KeyResolver.java:55-62 | If every non-blank expression evaluates to a non-null value, the parts are exactly those values in order. |
| `KeyProperties.KeyJoinsGroups` | distributed-lock-redis-spring/src/main/java/com/github/chengtang/dlock/core/KeyResolver.java:85-87 | The key joins the prefix as written, then the parameter parts, then the expression parts, with one delimiter at each seam. All four cases of empty or non-empty groups are stated. A blank prefix is left out. |
| `JavaText.TrimRemovesEndSpace` | distributed-lock-redis-spring/src/main/java/com/github/chengtang/dlock/core/KeyResolver.java:28 | `trim` removes exactly the maximal runs of characters up to U+0020 at both ends. Only an all-space string trims to empty. |
| `JavaText.JoinConcat` | distributed-lock-redis-spring/src/main/java/com/github/chengtang/dlock/core/KeyResolver.java:87 | Joining two non-empty lists puts exactly one delimiter at the seam. |
| `JavaText.JoinLength` | distributed-lock-redis-spring/src/main/java/com/github/chengtang/dlock/core/KeyResolver.java:87 | A joined key's length is the parts' total length plus one delimiter per seam. |
| `JavaText.PiecesJoin` | distributed-lock-redis-spring/src/main/java/com/github/chengtang/dlock/core/KeyResolver.java:68 | The pieces between dots contain no dot and, joined with dots, give back the expression. |
| `JavaText.SplitDotsPieces` | distributed-lock-redis-spring/src/main/java/com/github/chengtang/dlock/core/KeyResolver.java:68 | `split("\\.")` gives the dot-free pieces up to the last non-empty one, and a dotless string as itself. |
| `JavaText.SplitDotsOfJoin` | distributed-lock-redis-spring/src/main/java/com/github/chengtang/dlock/core/KeyResolver.java:68 | `split("\\.")` gives back the dot-free pieces of a dotted path whose last piece is not empty. |
| `JavaText.DecimalInjective` | distributed-lock-redis-spring/src/main/java/com/github/chengtang/dlock/core/KeyResolver.java:43-45 | Different argument indexes render to different decimal suffixes. |
| `KeyExamples.BuildKeyWithSpELOnly` | distributed-lock-redis-spring/src/test/java/com/github/chengtang/dlock/KeyResolverTest.java:43-49 | With key expressions `#p0.id`, `#p1` on `(PlainUser(1), 9)` the key is `dl:1:9`. Both expressions evaluate, `#p0.id` through `PlainUser`'s getter. |
| `KeyExamples.BuildKeyWithParamOnly` | distributed-lock-redis-spring/src/test/java/com/github/chengtang/dlock/KeyResolverTest.java:51-57 | With `@LockKeyParam("id") User` and `@LockKeyParam Long` the key is `dl:1:9`. |
| `KeyExamples.BuildKeyUnionBothParamFirstThenSpEL` | distributed-lock-redis-spring/src/test/java/com/github/chengtang/dlock/KeyResolverTest.java:59-65 | Parameter parts come before expression parts: `dl:1:9:1:9`. `User` has no getter, so `#p0.id` fails to evaluate, and its `1` comes from the fallback reading the field. |
| `KeyExamples.FallbackExample` | distributed-lock-redis-spring/src/test/java/com/github/chengtang/dlock/KeyResolverTest.java:14-19 | Against a `User`, whose `id` is package-private with no getter, `#p0.id` fails to evaluate. With nothing collected yet the fallback yields `1`, and `#p1` then adds `9`. |
| `KeyExamples.BuildKeyWithFieldOnly` | distributed-lock-redis-spring/src/test/java/com/github/chengtang/dlock/KeyResolverTest.java:67-73 | An untagged `User` contributes its tagged `id`, then the tagged `Long` contributes itself: `dl:1:9`. |
| `LockAspect.AcquireFailure` | distributed-lock-redis-spring/src/main/java/com/github/chengtang/dlock/aop/DistributedLockAspect.java:44 | A failed acquisition throws `IllegalStateException` with a message naming the key. |
| `LockAspect.AcquireCall` | distributed-lock-redis-spring/src/main/java/com/github/chengtang/dlock/aop/DistributedLockAspect.java:35-39 | `waitTime > 0` selects the waiting overload with the annotation's spin configuration. Otherwise the single attempt is used. Both get the same key, lease and unit. |
| `LockAspect.DistributedLockAspect.constructor` | distributed-lock-redis-spring/src/main/java/com/github/chengtang/dlock/aop/DistributedLockAspect.java:21-23 | The wrapper holds the lock client it is given. |
| `LockAspect.DistributedLockAspect.Around` | distributed-lock-redis-spring/src/main/java/com/github/chengtang/dlock/aop/DistributedLockAspect.java:25-57 | The key is built once and used for both acquire and release. On failure the wrapper throws and neither the method nor `unlock` runs. On success the method runs exactly once and `unlock` once afterwards, even when the method throws. The method's outcome is passed through unchanged, and the released record is gone. |
| `LockAspect.DistributedLockAspect.Acquire` | distributed-lock-redis-spring/src/main/java/com/github/chengtang/dlock/aop/DistributedLockAspect.java:35-39 | The acquisition step succeeds exactly when the selected overload's specification says so. On success the key is held in the store and recorded locally with its token. On failure the local tokens are unchanged. |
| `LockAspect.DistributedLockAspect.ProceedAndRelease` | distributed-lock-redis-spring/src/main/java/com/github/chengtang/dlock/aop/DistributedLockAspect.java:46-56 | Entered holding the lock, the method runs once and its outcome is returned unchanged. The `finally` release then deletes this client's record, answers 1 and forgets the local token. |
| `LockAspect.SequentialCallsBothRun` | distributed-lock-redis-spring/src/test/java/com/github/chengtang/dlock/AspectIntegrationTest.java:23-34 | Two sequential calls on the same key both acquire and run, because the first releases. |

## Left out

- Redis transport and Spring wiring are not modelled: `StringRedisTemplate`, the script plumbing, `DistributedLockAutoConfiguration` and the sample application. The store always answers, so a transport failure (which would propagate as an exception) is not modelled.
- Lease lifetimes are not tracked. A lease running out is an explicit external step (`Server.Expire`) or part of what the world does during a sleep.
- Concurrency is not modelled. The `ThreadLocal` ownership table is one table for one execution context. Racing threads and `ConcurrentHashMap` semantics are out. Other processes act on the store only while this thread sleeps. Cross-process exclusion is the store's atomic set-if-absent, stated by `RedisStore.MutualExclusion`.
- Real time, sleeping and randomness are inputs: an abstract clock, a world-chosen `Wake` per sleep, and a token supply. The client's contracts hold for any supplied tokens. `RedisStore.StaleReleaseKeepsNewHolder` assumes the stale and current tokens differ, which the program gets from random UUIDs.
- `LockClient.RedisLockClient.TryLockSpin`: `nanoTime` is not re-read between computing the deadline and the first loop check. So a call with `waitTime = 0` makes one attempt in the model, whereas a real clock may already have moved past the deadline. The wrapper never calls the waiting overload with `waitTime <= 0`.
- `LockClient.RedisLockClient.TryLockSpin`: Java's `int` and `long` limits are not modelled. Integers are unbounded, so the `(int)` cast of the interval, overflow of a LINEAR or EXPONENTIAL interval, overflow of the deadline, and `TimeUnit`'s saturation are left out.
- `RedisStore.SetIfAbsent`, `RedisStore.Server.SetIfAbsentCommand` and `LockClient.RedisLockClient.TryLock`: the lease is not checked. By `LockConfig.ToMillis`, a lease shorter than one millisecond, zero or negative gives an expiry of at most 0 ms. Redis normally rejects such a command with an error reply, so `tryLock` and then `around` throw. The model instead acquires the key with no lease. The exact outcome depends on the Redis client library, which is not part of this model.
- Logging (debug and warn calls) is left out.
- The expression language and `readProperty` (both strategies, including its own field-walking loop) are left uninterpreted as the `Interpreter`'s functions. An exception from either is `None`, like `null`.
- Reading a field by reflection cannot fail in the model. The swallowed `IllegalAccessException` and the toggling of field accessibility are left out.
- `LockKeyParam` is not part of this model. Its `value` is taken to default to the empty path.
- `LockAspect.DistributedLockAspect.Around`: the intercepted method is an outcome given in advance. It does not use the lock client, no time passes while it runs, and the store does not change meanwhile. The expired-lease case at release is covered by `Unlock` and `RedisStore.StaleReleaseKeepsNewHolder`.
- `FakeDistributedLockClient` and the HTTP integration test are left out. The first is a test double; the second needs a live Redis and threads.
- The code differs from a plain reading of its documentation in two places, and the model follows the code. First, the waiting loop checks the deadline only before each attempt, never before a sleep, so one sleep may overshoot the deadline. Second, `waitTime <= 0` is routed to the single attempt by the wrapper, not by the client.
