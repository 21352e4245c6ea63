/**
 * The Redis lock client: one-shot acquisition, the spin-wait loop and the
 * owner-checked release, on an abstract clock and a shared store server.
 */
module LockClient {
  import opened Wrappers
  import opened LockConfig
  import opened Backoff
  import opened RedisStore

  import opened SpinSpec

  /** `Boolean.TRUE.equals(reply)`: a null or false reply means the key is busy. */
  function IsAcquired(reply: Option<bool>): (ok: bool)
    ensures ok ==> reply.Some?
    ensures reply.Some? ==> ok == reply.value
  {
    reply == Some(true)
  }

  class RedisLockClient {
    /** The store server, shared with every other client. */
    const redis: Server
    /** How far the clock moves during one store round trip. */
    const roundTripNs: Positive
    /** Keys this execution context believes it holds, with their tokens. */
    var localTokens: map<string, string>
    /** The reading of `System.nanoTime()`. */
    var clock: int
    /** The thread's interrupt status. */
    var interruptFlag: bool
    /** Store commands and sleeps issued so far. */
    var trace: seq<Event>

    constructor(redis: Server, roundTripNs: Positive, startNs: int)
      ensures this.redis == redis && this.roundTripNs == roundTripNs
      ensures localTokens == map[] && clock == startNs && !interruptFlag && trace == []
    {
      this.redis := redis;
      this.roundTripNs := roundTripNs;
      localTokens := map[];
      clock := startNs;
      interruptFlag := false;
      trace := [];
    }

    /** One set-if-absent with a fresh token; on success the token is recorded locally. */
    method TryLock(key: string, leaseTime: int, unit: TimeUnit, token: string) returns (ok: bool)
      modifies this, redis
      ensures ok <==> key !in old(redis.records)
      ensures redis.records == if ok then old(redis.records)[key := token] else old(redis.records)
      ensures localTokens == if ok then old(localTokens)[key := token] else old(localTokens)
      ensures clock == old(clock) + roundTripNs && interruptFlag == old(interruptFlag)
      ensures trace == old(trace) + [Acquire(key, token, ToMillis(unit, leaseTime), old(clock), ok)]
    {
      var reply := redis.SetIfAbsentCommand(key, token);
      ok := IsAcquired(reply);
      trace := trace + [Acquire(key, token, ToMillis(unit, leaseTime), clock, ok)];
      clock := clock + roundTripNs;
      if ok {
        localTokens := localTokens[key := token];
      }
    }

    /**
     * `TimeUnit.MILLISECONDS.sleep(ms)`. A thread whose interrupt status is
     * already set is interrupted at once; an interrupted sleep clears the status.
     */
    method Sleep(ms: int, wake: Wake) returns (interrupted: bool)
      modifies this, redis
      ensures interrupted <==> old(interruptFlag) || wake.interrupted
      ensures !interruptFlag
      ensures old(interruptFlag) ==> clock == old(clock) && redis.records == old(redis.records)
      ensures !old(interruptFlag) ==> redis.records == wake.records
      ensures !old(interruptFlag) ==>
                clock == old(clock) + (if interrupted then 0 else ms * 1_000_000) + wake.lagNs
      ensures localTokens == old(localTokens)
      ensures trace == old(trace) + [Slept(ms, interrupted)]
    {
      if interruptFlag {
        interrupted := true;
      } else {
        interrupted := wake.interrupted;
        redis.Interleave(wake.records);
        clock := clock + (if interrupted then 0 else ms * 1_000_000) + wake.lagNs;
      }
      interruptFlag := false;
      trace := trace + [Slept(ms, interrupted)];
    }

    /**
     * One pass of the waiting loop's body: an attempt, then (with a configuration)
     * the cap check, a sleep and the interval update. `stop` says whether the
     * loop returns or breaks here; otherwise the new counters are returned.
     */
    method SpinOnce(p: SpinParams, leaseTime: int, unit: TimeUnit, attempts: nat, intervalMs: int, slept: nat)
      returns (stop: bool, ok: bool, attempts': nat, intervalMs': int, slept': nat)
      requires p.leaseMs == ToMillis(unit, leaseTime) && p.stepMs == StepOf(p.spin) && p.roundTripNs == roundTripNs
      modifies this, redis
      ensures var round := SpinRound(p, SpinState(old(clock), old(redis.records), old(interruptFlag),
                                                  attempts, intervalMs, slept));
              && stop == round.Stop? && trace == old(trace) + round.events
              && (stop ==> && ok == round.ok && clock == round.last.clock
                           && redis.records == round.last.records && interruptFlag == round.last.flag)
              && (!stop ==> round.next == SpinState(clock, redis.records, interruptFlag, attempts', intervalMs', slept'))
      ensures stop && ok ==> p.key in redis.records && localTokens == old(localTokens)[p.key := redis.records[p.key]]
      ensures !(stop && ok) ==> localTokens == old(localTokens)
    {
      attempts', intervalMs', slept' := attempts, intervalMs, slept;
      ok := TryLock(p.key, leaseTime, unit, p.tokens(attempts));
      if ok {
        return true, true, attempts', intervalMs', slept';
      }
      if p.spin.None? {
        return true, false, attempts', intervalMs', slept';
      }
      attempts' := attempts + 1;
      if p.spin.value.maxAttempts > 0 && attempts' >= p.spin.value.maxAttempts {
        return true, false, attempts', intervalMs', slept';
      }
      if intervalMs > 0 {
        var interrupted := Sleep(intervalMs, p.wakes(slept));
        slept' := slept + 1;
        if interrupted {
          interruptFlag := true;
          return true, false, attempts', intervalMs', slept';
        }
        if p.spin.value.strategy == LINEAR {
          intervalMs' := intervalMs + RawIntervalMs(p.spin.value);
        } else if p.spin.value.strategy == EXPONENTIAL {
          intervalMs' := intervalMs * 2;
        }
      }
      stop := false;
    }

    /**
     * Attempts until one succeeds, the clock passes the deadline, the attempt cap
     * is reached or a sleep is interrupted: the call, its trace, clock, store and
     * interrupt status are those of `Spin` from the start state. Attempt `j` of
     * this call offers `tokens(j)`; sleep `j` ends as `wakes(j)`.
     */
    method TryLockSpin(key: string, waitTime: int, leaseTime: int, unit: TimeUnit,
                       spin: Option<SpinWaitConfig>, tokens: nat -> string, wakes: nat -> Wake)
      returns (ok: bool)
      modifies this, redis
      ensures var p := ParamsOf(key, old(clock), waitTime, leaseTime, unit, spin, tokens, wakes, roundTripNs);
              var r := Spin(p, StartState(old(clock), old(redis.records), old(interruptFlag), p.stepMs));
              && ok == r.ok && trace == old(trace) + r.events
              && clock == r.last.clock && redis.records == r.last.records && interruptFlag == r.last.flag
      ensures ok ==> key in redis.records && localTokens == old(localTokens)[key := redis.records[key]]
      ensures !ok ==> localTokens == old(localTokens)
    {
      var p := ParamsOf(key, clock, waitTime, leaseTime, unit, spin, tokens, wakes, roundTripNs);
      var intervalMs := BaseIntervalMs(spin);
      BaseIsClampedStep(spin);
      ghost var events, last;
      ok, events, last := SpinLoop(p, leaseTime, unit, intervalMs);
    }

    /**
     * The waiting loop of `TryLockSpin`, entered with no attempt made, no sleep
     * taken and the first interval. The ghost results name what the loop emitted
     * and the counters it ended with.
     */
    method SpinLoop(p: SpinParams, leaseTime: int, unit: TimeUnit, intervalMs: int)
      returns (ok: bool, ghost events: seq<Event>, ghost last: SpinState)
      requires p.leaseMs == ToMillis(unit, leaseTime) && p.stepMs == StepOf(p.spin) && p.roundTripNs == roundTripNs
      modifies this, redis
      ensures Spin(p, SpinState(old(clock), old(redis.records), old(interruptFlag), 0, intervalMs, 0))
              == SpinResult(ok, events, last)
      ensures trace == old(trace) + events
      ensures last == SpinState(clock, redis.records, interruptFlag, last.attempts, last.intervalMs, last.slept)
      ensures ok ==> p.key in redis.records
      ensures localTokens == if ok then old(localTokens)[p.key := redis.records[p.key]] else old(localTokens)
    {
      ghost var start := SpinState(clock, redis.records, interruptFlag, 0, intervalMs, 0);
      var deadline := p.deadline;
      var attempts: nat := 0;
      var interval := intervalMs;
      // Which of the world's wake-ups the next sleep receives.
      var slept: nat := 0;
      events := [];
      assert events + [] == events;
      while clock <= deadline
        invariant Spin(p, start)
                  == Then(events, Spin(p, SpinState(clock, redis.records, interruptFlag, attempts, interval, slept)))
        invariant trace == old(trace) + events
        invariant localTokens == old(localTokens)
        decreases deadline - clock
      {
        ghost var cur := SpinState(clock, redis.records, interruptFlag, attempts, interval, slept);
        ghost var round := SpinRound(p, cur);
        var stop;
        stop, ok, attempts, interval, slept := SpinOnce(p, leaseTime, unit, attempts, interval, slept);
        if stop {
          StopIn(p, start, events, cur);
          Extend(old(trace), events, round.events);
          events, last := events + round.events, round.last;
          return;
        }
        GoOn(p, start, events, cur);
        Extend(old(trace), events, round.events);
        events := events + round.events;
      }
      last := SpinState(clock, redis.records, interruptFlag, attempts, interval, slept);
      Expired(p, start, events, last);
      ok := false;
    }

    /**
     * Drops the local token for `key`; if there was one, asks the server to delete
     * the record only if it still holds that token. The script's answer is ignored.
     */
    method Unlock(key: string)
      modifies this, redis
      ensures localTokens == old(localTokens) - {key}
      ensures key !in old(localTokens) ==> redis.records == old(redis.records) && trace == old(trace)
      ensures key in old(localTokens) ==>
                var token := old(localTokens)[key];
                var r := ReleaseScript(old(redis.records), key, token);
                && redis.records == r.0
                && trace == old(trace) + [Release(key, token, r.1)]
      ensures key in old(localTokens) ==> clock == old(clock) + roundTripNs
      ensures key !in old(localTokens) ==> clock == old(clock)
      ensures interruptFlag == old(interruptFlag)
    {
      var token := if key in localTokens then Some(localTokens[key]) else None;
      localTokens := localTokens - {key};
      if token.None? {
        return;
      }
      var deleted := redis.EvalRelease(key, token.value);
      clock := clock + roundTripNs;
      trace := trace + [Release(key, token.value, deleted)];
    }
  }

  /**
   * `unlock` twice in a row: the first call releases as `Unlock` says, the
   * second finds no local token and changes nothing.
   */
  method UnlockTwice(client: RedisLockClient, key: string)
    modifies client, client.redis
    ensures client.localTokens == old(client.localTokens) - {key}
    ensures key !in old(client.localTokens) ==> client.redis.records == old(client.redis.records)
    ensures key in old(client.localTokens) ==>
              client.redis.records == ReleaseScript(old(client.redis.records), key, old(client.localTokens)[key]).0
    ensures |client.trace| <= |old(client.trace)| + 1
  {
    client.Unlock(key);
    ghost var between := client.trace;
    client.Unlock(key);
    assert client.trace == between;
  }
}
