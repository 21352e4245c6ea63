/**
 * The interception wrapper around a `@Lock` method: build the key once,
 * acquire with the single-attempt or the waiting overload, fail without
 * running the method when the lock is not acquired, and otherwise run the
 * method and release the lock on every exit path.
 */
module LockAspect {
  import opened Wrappers
  import opened LockConfig
  import opened RedisStore
  import opened SpinSpec
  import opened LockClient
  import opened KeyResolver

  /** What raising an exception carries: its class and message. */
  datatype Failure = Failure(exceptionClass: string, message: string)

  /** How a call ends: it returns a value or throws. */
  datatype Outcome<T> = Returned(value: T) | Threw(failure: Failure)

  /** The exception the wrapper throws when the lock is busy. */
  function AcquireFailure(key: string): (f: Failure)
    ensures f.exceptionClass == "java.lang.IllegalStateException"
    ensures f.message == "already lock.Failed to acquire distributed lock for key=" + key
  {
    Failure("java.lang.IllegalStateException", "already lock.Failed to acquire distributed lock for key=" + key)
  }

  /** The calls the wrapper makes on its collaborators, in order. */
  datatype Call =
    | TryLockOnce(key: string, leaseTime: int, unit: TimeUnit)
    | TryLockWaiting(key: string, waitTime: int, leaseTime: int, unit: TimeUnit, spin: SpinWaitConfig)
    | Proceed
    | Unlock(key: string)

  /** The acquisition call the annotation selects: the waiting overload exactly when `waitTime > 0`. */
  function AcquireCall(lockAnn: Lock, key: string): (c: Call)
    ensures lockAnn.waitTime > 0 <==> c.TryLockWaiting?
    ensures c.TryLockOnce? || c.TryLockWaiting?
    ensures c.key == key && c.leaseTime == lockAnn.expireTime && c.unit == lockAnn.timeUnit
    ensures c.TryLockWaiting? ==> c.waitTime == lockAnn.waitTime && c.spin == SpinConfigOf(lockAnn.spinWaitTimeParam)
  {
    if lockAnn.waitTime > 0 then
      TryLockWaiting(key, lockAnn.waitTime, lockAnn.expireTime, lockAnn.timeUnit, SpinConfigOf(lockAnn.spinWaitTimeParam))
    else TryLockOnce(key, lockAnn.expireTime, lockAnn.timeUnit)
  }

  /**
   * Whether the selected acquisition succeeds from the client's clock and the
   * store's records: one set-if-absent, or the waiting loop from its start state.
   */
  function Acquires(lockAnn: Lock, key: string, clock: int, records: Store, flag: bool,
                    tokens: nat -> string, wakes: nat -> Wake, roundTripNs: Positive): bool
  {
    if lockAnn.waitTime > 0 then
      var p := ParamsOf(key, clock, lockAnn.waitTime, lockAnn.expireTime, lockAnn.timeUnit,
                        Some(SpinConfigOf(lockAnn.spinWaitTimeParam)), tokens, wakes, roundTripNs);
      Spin(p, StartState(clock, records, flag, p.stepMs)).ok
    else key !in records
  }

  class DistributedLockAspect {
    const lockClient: RedisLockClient
    /** Every call made on the lock client and the intercepted method. */
    ghost var calls: seq<Call>

    constructor(lockClient: RedisLockClient)
      ensures this.lockClient == lockClient && calls == []
    {
      this.lockClient := lockClient;
      calls := [];
    }

    /**
     * The acquisition `around` selects: the waiting overload with the
     * annotation's spin configuration when `waitTime > 0`, else one attempt.
     */
    method Acquire(lockAnn: Lock, key: string, tokens: nat -> string, wakes: nat -> Wake) returns (ok: bool)
      modifies lockClient, lockClient.redis
      ensures ok == Acquires(lockAnn, key, old(lockClient.clock), old(lockClient.redis.records),
                             old(lockClient.interruptFlag), tokens, wakes, lockClient.roundTripNs)
      ensures ok ==> key in lockClient.redis.records
                     && lockClient.localTokens == old(lockClient.localTokens)[key := lockClient.redis.records[key]]
      ensures !ok ==> lockClient.localTokens == old(lockClient.localTokens)
    {
      var spinCfg := SpinConfigOf(lockAnn.spinWaitTimeParam);
      if lockAnn.waitTime > 0 {
        ok := lockClient.TryLockSpin(key, lockAnn.waitTime, lockAnn.expireTime, lockAnn.timeUnit,
                                     Some(spinCfg), tokens, wakes);
      } else {
        ok := lockClient.TryLock(key, lockAnn.expireTime, lockAnn.timeUnit, tokens(0));
      }
    }

    /**
     * `around`: the method's outcome `proceed` is passed through when the lock
     * is acquired, after the lock is released; otherwise the wrapper throws and
     * neither the method nor `unlock` runs. Attempt `j` offers `tokens(j)`; a
     * sleep `j` of the waiting overload ends as `wakes(j)`.
     */
    method Around<T>(lockAnn: Lock, m: MethodInfo, args: seq<Option<Value>>, argsText: string,
                     interp: Interpreter, proceed: Outcome<T>, tokens: nat -> string, wakes: nat -> Wake)
      returns (result: Outcome<T>, ghost acquired: bool)
      requires MatchesArgs(m, args)
      modifies this, lockClient, lockClient.redis
      ensures var key := KeyOf(lockAnn, m, args, argsText, interp);
              && acquired == Acquires(lockAnn, key, old(lockClient.clock), old(lockClient.redis.records),
                                      old(lockClient.interruptFlag), tokens, wakes, lockClient.roundTripNs)
              && calls == old(calls) + [AcquireCall(lockAnn, key)] + (if acquired then [Proceed, Unlock(key)] else [])
              && result == (if acquired then proceed else Threw(AcquireFailure(key)))
              && (acquired ==> && key !in lockClient.redis.records
                               && lockClient.localTokens == old(lockClient.localTokens) - {key}
                               && lockClient.trace != []
                               && lockClient.trace[|lockClient.trace| - 1].Release?
                               && lockClient.trace[|lockClient.trace| - 1].key == key
                               && lockClient.trace[|lockClient.trace| - 1].deleted == 1)
              && (!acquired ==> lockClient.localTokens == old(lockClient.localTokens))
    {
      var key := BuildKey(lockAnn, m, args, argsText, interp);
      var ok := Acquire(lockAnn, key, tokens, wakes);
      acquired := ok;
      calls := calls + [AcquireCall(lockAnn, key)];
      if !ok {
        return Threw(AcquireFailure(key)), false;
      }
      result := ProceedAndRelease(key, proceed);
    }

    /**
     * The `try { proceed } finally { unlock }` part, entered holding the lock:
     * the method runs once, its outcome is passed through, and the release
     * deletes the record this client holds.
     */
    method ProceedAndRelease<T>(key: string, proceed: Outcome<T>) returns (result: Outcome<T>)
      requires key in lockClient.localTokens && key in lockClient.redis.records
      requires lockClient.redis.records[key] == lockClient.localTokens[key]
      modifies this, lockClient, lockClient.redis
      ensures calls == old(calls) + [Proceed, Unlock(key)]
      ensures result == proceed
      ensures key !in lockClient.redis.records
      ensures lockClient.localTokens == old(lockClient.localTokens) - {key}
      ensures lockClient.trace != [] && lockClient.trace[|lockClient.trace| - 1] == Release(key, old(lockClient.localTokens)[key], 1)
    {
      calls := calls + [Proceed];
      result := proceed;
      lockClient.Unlock(key);
      calls := calls + [Unlock(key)];
    }
  }

  /**
   * Two calls, one after the other, to a method locked on the same key with
   * `expireTime = 1`, `waitTime = 1` seconds: the first releases before the
   * second starts, so both acquire and both bodies run.
   */
  method SequentialCallsBothRun<T>(lockAnn: Lock, m: MethodInfo, args: seq<Option<Value>>, interp: Interpreter,
                                   first: Outcome<T>, second: Outcome<T>,
                                   tokens: nat -> string, wakes: nat -> Wake)
    returns (r1: Outcome<T>, r2: Outcome<T>)
    requires MatchesArgs(m, args)
    requires lockAnn.expireTime == 1 && lockAnn.waitTime == 1 && lockAnn.timeUnit == SECONDS
    ensures r1 == first && r2 == second
  {
    var server := new Server(map[]);
    var client := new RedisLockClient(server, 1, 0);
    var aspect := new DistributedLockAspect(client);
    var key := KeyOf(lockAnn, m, args, "args", interp);
    var p1 := ParamsOf(key, client.clock, 1, 1, SECONDS, Some(SpinConfigOf(lockAnn.spinWaitTimeParam)),
                       tokens, wakes, client.roundTripNs);
    SpinFirstRound(p1, client.clock, client.redis.records, client.interruptFlag);
    ghost var ok1;
    r1, ok1 := aspect.Around(lockAnn, m, args, "args", interp, first, tokens, wakes);
    var p2 := ParamsOf(key, client.clock, 1, 1, SECONDS, Some(SpinConfigOf(lockAnn.spinWaitTimeParam)),
                       tokens, wakes, client.roundTripNs);
    SpinFirstRound(p2, client.clock, client.redis.records, client.interruptFlag);
    ghost var ok2;
    r2, ok2 := aspect.Around(lockAnn, m, args, "args", interp, second, tokens, wakes);
  }
}
