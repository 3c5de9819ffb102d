/** The push relay's keyed limiter: it forgets idle keys and, at a hard cap, the
    oldest-touched ones. */
module NotifyLimiter {
  import opened TokenBuckets

  type Key = string

  type Buckets = map<Key, Bucket>

  /** `refill` may be zero (the idle sweep is then off); a negative capacity makes the
      constructor panic when it computes the horizon. */
  datatype Limits = Limits(capacity: real, refill: real, hardCap: nat) {
    predicate Valid() {
      capacity >= 0.0 && refill >= 0.0
    }

    /** Untouched long enough to be back at capacity. */
    predicate Idle(b: Bucket, now: real)
      requires Valid()
    {
      refill > 0.0 && Elapsed(b.last, now) >= capacity / refill
    }
  }

  function Sweep(l: Limits, m: Buckets, now: real): Buckets
    requires l.Valid()
  {
    map k | k in m && !l.Idle(m[k], now) :: m[k]
  }

  predicate SubMap(t: Buckets, s: Buckets) {
    forall k :: k in t ==> k in s && t[k] == s[k]
  }

  /** Keys left once room has been made for a new one. */
  function Room(l: Limits): nat {
    if l.hardCap == 0 then 0 else l.hardCap - 1
  }

  /** `t` is `s` with room made for `key`: nothing is removed when `key` is present or there
      is room, otherwise exactly as many as needed, the oldest-touched first. */
  ghost predicate Trimmed(l: Limits, s: Buckets, key: Key, t: Buckets) {
    && SubMap(t, s)
    && (key in s || |s| < l.hardCap ==> t == s)
    && (key !in s && |s| >= l.hardCap ==> |t| == Room(l))
    && (forall k, j :: k in s && k !in t && j in t ==> s[k].last <= s[j].last)
  }

  function Entry(l: Limits, m: Buckets, key: Key, now: real): Bucket {
    if key in m then m[key] else Bucket(l.capacity, now)
  }

  /** The request is answered from `mid`, the map after eviction. */
  ghost predicate Answered(l: Limits, mid: Buckets, call: Call<Key>, after: Buckets) {
    var (b, ok) := Spend(l.capacity, l.refill, Entry(l, mid, call.key, call.now), call.now);
    call.ok == ok && after == mid[call.key := b]
  }

  ghost predicate Acquires(l: Limits, before: Buckets, mid: Buckets, call: Call<Key>, after: Buckets)
    requires l.Valid()
  {
    Trimmed(l, Sweep(l, before, call.now), call.key, mid) && Answered(l, mid, call, after)
  }

  /** The oldest-touched of some keys. */
  predicate IsOldest(m: Buckets, keys: set<Key>, k: Key)
    requires keys <= m.Keys
  {
    k in keys && forall j :: j in keys ==> m[k].last <= m[j].last
  }

  lemma {:induction false} OldestExists(m: Buckets, keys: set<Key>)
    requires keys != {} && keys <= m.Keys
    ensures exists k :: IsOldest(m, keys, k)
    decreases keys
  {
    var y :| y in keys;
    if keys == {y} {
      assert IsOldest(m, keys, y);
    } else {
      OldestExists(m, keys - {y});
      var k :| IsOldest(m, keys - {y}, k);
      forall j | j in keys ensures j == y || m[k].last <= m[j].last {
        assert j != y ==> j in keys - {y};
      }
      assert IsOldest(m, keys, if m[k].last <= m[y].last then k else y);
    }
  }

  class TokenBucketMap {
    const limits: Limits
    var buckets: Buckets

    constructor (limits: Limits)
      ensures this.limits == limits && buckets == map[]
    {
      this.limits := limits;
      buckets := map[];
    }

    /** `evict`: drop the idle entries, then the oldest ones while `keep` has no room. */
    method Evict(keep: Key, now: real)
      requires limits.Valid()
      modifies this
      ensures Trimmed(limits, Sweep(limits, old(buckets), now), keep, buckets)
    {
      buckets := map k | k in buckets && !limits.Idle(buckets[k], now) :: buckets[k];
      ghost var swept := buckets;
      while keep !in buckets && |buckets| >= limits.hardCap
        invariant SubMap(buckets, swept)
        invariant keep in swept || |swept| < limits.hardCap ==> buckets == swept
        invariant keep !in swept && |swept| >= limits.hardCap ==> |buckets| >= Room(limits)
        invariant forall k, j :: k in swept && k !in buckets && j in buckets ==> swept[k].last <= swept[j].last
        decreases |buckets|
      {
        if buckets == map[] { break; }
        OldestExists(buckets, buckets.Keys);
        var oldest :| oldest in buckets.Keys && IsOldest(buckets, buckets.Keys, oldest);
        assert |buckets.Keys - {oldest}| == |buckets| - 1;
        assert (buckets - {oldest}).Keys == buckets.Keys - {oldest};
        buckets := buckets - {oldest};
      }
    }

    /** `try_acquire_at`. */
    method TryAcquireAt(key: Key, now: real) returns (ok: bool)
      requires limits.Valid()
      modifies this
      ensures exists mid :: Acquires(limits, old(buckets), mid, Call(key, now, ok), buckets)
    {
      Evict(key, now);
      ghost var mid := buckets;
      var b := if key in buckets then buckets[key] else Bucket(limits.capacity, now);
      var tokens := Refilled(limits.capacity, limits.refill, b, now);
      ok := tokens >= 1.0;
      if ok {
        tokens := tokens - 1.0;
      }
      buckets := buckets[key := Bucket(tokens, now)];
      assert Answered(limits, mid, Call(key, now, ok), buckets);
      assert Acquires(limits, old(buckets), mid, Call(key, now, ok), buckets);
    }
  }
}
