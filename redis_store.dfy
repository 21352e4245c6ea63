/**
 * The key-value store the lock lives in, reduced to the two atomic commands
 * the client issues: `SET key token PX lease NX` (set-if-absent) and the
 * compare-and-delete release script. Lease expiry is an external step.
 */
module RedisStore {
  import opened Wrappers

  /** Lock records: key to the owner's token. */
  type Store = map<string, string>

  /** `GET key`: the stored value, or nil when the key is absent. */
  function Get(s: Store, key: string): (r: Option<string>)
    ensures r.Some? <==> key in s
    ensures r.Some? ==> r.value == s[key]
  {
    if key in s then Some(s[key]) else None
  }

  /** `DEL key`: removes the record and answers how many keys it removed. */
  function Del(s: Store, key: string): (r: (Store, int))
    ensures r.0 == s - {key}
    ensures r.1 == (if key in s then 1 else 0)
  {
    (s - {key}, if key in s then 1 else 0)
  }

  /** Set-if-absent: creates the record only when the key is free; the Boolean says whether it did. */
  function SetIfAbsent(s: Store, key: string, value: string): (r: (Store, bool))
    ensures r.1 <==> key !in s
    ensures r.1 ==> r.0 == s[key := value]
    ensures !r.1 ==> r.0 == s
  {
    if key in s then (s, false) else (s[key := value], true)
  }

  /**
   * The release script: `if GET(key) == token then return DEL(key) else return 0`,
   * evaluated by the server as one indivisible step.
   */
  function ReleaseScript(s: Store, key: string, token: string): (r: (Store, int))
    ensures r.1 == 1 <==> key in s && s[key] == token
    ensures r.1 == 0 || r.1 == 1
    ensures r.0 == if r.1 == 1 then s - {key} else s
  {
    if Get(s, key) == Some(token) then Del(s, key) else (s, 0)
  }

  /** The lease of `key` runs out: the store drops the record on its own. */
  function Expire(s: Store, key: string): Store {
    s - {key}
  }

  /** Once a record exists, no second set-if-absent for its key succeeds, whatever token it offers. */
  lemma MutualExclusion(s: Store, key: string, t1: string, t2: string)
    requires SetIfAbsent(s, key, t1).1
    ensures !SetIfAbsent(SetIfAbsent(s, key, t1).0, key, t2).1
    ensures SetIfAbsent(SetIfAbsent(s, key, t1).0, key, t2).0[key] == t1
  {
  }

  /** Releasing right after acquiring a free key restores the store exactly. */
  lemma AcquireThenRelease(s: Store, key: string, t: string)
    requires key !in s
    ensures ReleaseScript(SetIfAbsent(s, key, t).0, key, t) == (s, 1)
  {
    assert s[key := t] - {key} == s;
  }

  /** Releasing twice with the same token: the second run finds nothing and changes nothing. */
  lemma ReleaseTwice(s: Store, key: string, t: string)
    ensures var s1 := ReleaseScript(s, key, t).0; ReleaseScript(s1, key, t) == (s1, 0)
  {
  }

  /** A holder whose lease expired and was re-acquired by another token cannot remove the new record. */
  lemma StaleReleaseKeepsNewHolder(s: Store, key: string, stale: string, current: string)
    requires stale != current
    ensures var s1 := SetIfAbsent(Expire(s, key), key, current);
            && s1.1
            && ReleaseScript(s1.0, key, stale) == (s1.0, 0)
            && s1.0[key] == current
  {
  }

  /** The release script touches no key but its own. */
  lemma ReleaseIsLocal(s: Store, key: string, token: string, other: string)
    requires other != key
    ensures Get(ReleaseScript(s, key, token).0, other) == Get(s, other)
  {
  }

  /** The store server shared by every client. */
  class Server {
    var records: Store

    constructor(initial: Store)
      ensures records == initial
    {
      records := initial;
    }

    /** `SET key value PX lease NX`, answered as a (possibly null) Boolean. */
    method SetIfAbsentCommand(key: string, value: string) returns (reply: Option<bool>)
      modifies this
      ensures reply == Some(key !in old(records))
      ensures records == SetIfAbsent(old(records), key, value).0
    {
      var r := SetIfAbsent(records, key, value);
      records := r.0;
      reply := Some(r.1);
    }

    /** Evaluates the release script and answers the number of deleted keys. */
    method EvalRelease(key: string, token: string) returns (deleted: int)
      modifies this
      ensures deleted == (if key in old(records) && old(records)[key] == token then 1 else 0)
      ensures records == ReleaseScript(old(records), key, token).0
    {
      var r := ReleaseScript(records, key, token);
      records := r.0;
      deleted := r.1;
    }

    /** The lease of `key` runs out. */
    method Expire(key: string)
      modifies this
      ensures records == old(records) - {key}
    {
      records := records - {key};
    }

    /** Other processes run: they acquire, release and see leases expire, leaving `after`. */
    method Interleave(after: Store)
      modifies this
      ensures records == after
    {
      records := after;
    }
  }
}
