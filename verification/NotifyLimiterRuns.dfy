/** What the push relay's limiter guarantees over every run. Requests are answered one by one
    under its lock, but each read the clock before, so the readings need not be in order. */
module NotifyLimiterRuns {
  import opened Prelude
  import opened TokenBuckets
  import opened NotifyLimiter

  /** `maps[i]` before request `i`, `mids[i]` after its eviction. */
  datatype Run = Run(maps: seq<Buckets>, mids: seq<Buckets>, calls: seq<Call<Key>>)

  ghost predicate StepAt(l: Limits, r: Run, i: nat)
    requires l.Valid() && i < |r.calls| && |r.maps| == |r.calls| + 1 && |r.mids| == |r.calls|
  {
    Acquires(l, r.maps[i], r.mids[i], r.calls[i], r.maps[i + 1])
  }

  ghost predicate IsRun(l: Limits, r: Run) {
    && l.Valid()
    && |r.maps| == |r.calls| + 1 && |r.mids| == |r.calls|
    && r.maps[0] == map[]
    && forall i :: 0 <= i < |r.calls| ==> StepAt(l, r, i)
  }

  lemma {:induction false} StepRange(l: Limits, before: Buckets, mid: Buckets, c: Call<Key>, after: Buckets)
    requires l.Valid() && Acquires(l, before, mid, c, after)
    requires InRange(l.capacity, before)
    ensures InRange(l.capacity, after) && (TouchedBy(before, c.now) ==> TouchedBy(after, c.now))
  {
    SpendFacts(l.capacity, l.refill, Entry(l, mid, c.key, c.now), c.now);
  }

  /** Stored tokens stay within `[0, capacity]`, and while readings are in order no bucket is
      stamped later than the last request. */
  lemma {:induction false} RangeAlways(l: Limits, r: Run, k: nat)
    requires IsRun(l, r) && k < |r.maps|
    ensures InRange(l.capacity, r.maps[k])
    ensures Chronological(r.calls) ==>
      forall i :: k - 1 <= i < |r.calls| && i >= 0 ==> TouchedBy(r.maps[k], r.calls[i].now)
  {
    if k > 0 {
      RangeAlways(l, r, k - 1);
      assert StepAt(l, r, k - 1);
      StepRange(l, r.maps[k - 1], r.mids[k - 1], r.calls[k - 1], r.maps[k]);
      if Chronological(r.calls) { Later(r.maps[k], r.calls, k - 1); }
    }
  }

  // ----- forgetting idle keys changes no answer --------------------------------------

  /** An idle bucket is full again. */
  lemma {:induction false} IdleIsFull(l: Limits, b: Bucket, now: real)
    requires l.Valid() && l.Idle(b, now) && b.tokens >= 0.0
    ensures Refilled(l.capacity, l.refill, b, now) == l.capacity
  {
    MulMono(l.capacity / l.refill, Elapsed(b.last, now), l.refill);
    assert l.capacity / l.refill * l.refill == l.capacity;
  }

  /** A limiter that keeps every bucket forever, after the first `n` requests. */
  ghost function Reference(l: Limits, calls: seq<Call<Key>>, n: nat): Buckets
    requires n <= |calls|
  {
    if n == 0 then map[] else
    var m, c := Reference(l, calls, n - 1), calls[n - 1];
    m[c.key := Spend(l.capacity, l.refill, Entry(l, m, c.key, c.now), c.now).0]
  }

  /** The reference limiter's answer to request `n`. */
  ghost predicate ReferenceAdmits(l: Limits, calls: seq<Call<Key>>, n: nat)
    requires n < |calls|
  {
    var c := calls[n];
    Spend(l.capacity, l.refill, Entry(l, Reference(l, calls, n), c.key, c.now), c.now).1
  }

  /** The kept buckets are the reference's, and every forgotten one is full at `now`. */
  ghost predicate Agrees(l: Limits, m: Buckets, ref: Buckets, now: real) {
    && SubMap(m, ref)
    && TouchedBy(ref, now) && InRange(l.capacity, ref)
    && (forall k :: k in ref && k !in m ==> Refilled(l.capacity, l.refill, ref[k], now) == l.capacity)
  }

  ghost predicate NoCapEviction(l: Limits, r: Run)
    requires IsRun(l, r)
  {
    forall i :: 0 <= i < |r.calls| ==> r.mids[i] == Sweep(l, r.maps[i], r.calls[i].now)
  }

  lemma {:induction false} SweepAgrees(l: Limits, m: Buckets, ref: Buckets, t: real, now: real)
    requires l.Valid() && Agrees(l, m, ref, t) && t <= now
    ensures Agrees(l, Sweep(l, m, now), ref, now)
  {
    forall k | k in ref && k !in Sweep(l, m, now)
      ensures Refilled(l.capacity, l.refill, ref[k], now) == l.capacity
    {
      if k in m {
        IdleIsFull(l, ref[k], now);
      } else {
        LevelOverTime(l.capacity, l.refill, ref, k, t, now);
      }
    }
  }

  /** Equal levels spend alike. */
  lemma {:induction false} SpendAgrees(l: Limits, m: Buckets, ref: Buckets, key: Key, now: real)
    requires l.Valid() && Agrees(l, m, ref, now)
    ensures Spend(l.capacity, l.refill, Entry(l, m, key, now), now)
         == Spend(l.capacity, l.refill, Entry(l, ref, key, now), now)
    ensures var b := Spend(l.capacity, l.refill, Entry(l, ref, key, now), now).0;
      Agrees(l, m[key := b], ref[key := b], now)
  {
    var e := Entry(l, ref, key, now);
    MulNonNeg(Elapsed(e.last, now), l.refill);
  }

  lemma {:induction false} AgreesAlways(l: Limits, r: Run, k: nat)
    requires IsRun(l, r) && Chronological(r.calls) && NoCapEviction(l, r) && k < |r.maps|
    ensures if k == 0 then Reference(l, r.calls, 0) == r.maps[0]
            else Agrees(l, r.maps[k], Reference(l, r.calls, k), r.calls[k - 1].now)
  {
    if k > 0 {
      AgreesAlways(l, r, k - 1);
      AnswersAgree(l, r, k - 1);
    }
  }

  lemma {:induction false} AnswersAgree(l: Limits, r: Run, i: nat)
    requires IsRun(l, r) && Chronological(r.calls) && NoCapEviction(l, r) && i < |r.calls|
    requires if i == 0 then Reference(l, r.calls, 0) == r.maps[0]
             else Agrees(l, r.maps[i], Reference(l, r.calls, i), r.calls[i - 1].now)
    ensures r.calls[i].ok == ReferenceAdmits(l, r.calls, i)
    ensures Agrees(l, r.maps[i + 1], Reference(l, r.calls, i + 1), r.calls[i].now)
  {
    var c, ref := r.calls[i], Reference(l, r.calls, i);
    assert StepAt(l, r, i);
    SweepAgrees(l, r.maps[i], ref, if i == 0 then c.now else r.calls[i - 1].now, c.now);
    SpendAgrees(l, r.mids[i], ref, c.key, c.now);
  }

  /** Idle-sweep refinement: with readings in order and without cap evictions, every answer is
      the one of a limiter that never forgets. */
  lemma {:induction false} SweepRefinesReference(l: Limits, r: Run, i: nat)
    requires IsRun(l, r) && Chronological(r.calls) && NoCapEviction(l, r) && i < |r.calls|
    ensures r.calls[i].ok == ReferenceAdmits(l, r.calls, i)
  {
    AgreesAlways(l, r, i);
    AnswersAgree(l, r, i);
  }

  // ----- the rate bound --------------------------------------------------------------

  /** Request `i` made the cap evict `key`. */
  ghost predicate CapEvicts(l: Limits, r: Run, key: Key, i: nat)
    requires IsRun(l, r) && i < |r.calls|
  {
    key in Sweep(l, r.maps[i], r.calls[i].now) && key !in r.mids[i]
  }

  ghost function Evicted(l: Limits, r: Run, key: Key): (e: seq<bool>)
    requires IsRun(l, r)
    ensures |e| == |r.calls|
  {
    seq(|r.calls|, i requires 0 <= i < |r.calls| => CapEvicts(l, r, key, i))
  }

  ghost function LevelOf(l: Limits, m: Buckets, key: Key, now: real): real {
    Level(l.capacity, l.refill, m, key, now)
  }

  /** An eviction leaves a full bucket's worth; a sweep leaves the level alone. */
  lemma {:induction false} EvictionLevels(l: Limits, before: Buckets, mid: Buckets, key: Key, now: real)
    requires l.Valid() && SubMap(mid, Sweep(l, before, now)) && InRange(l.capacity, before)
    ensures var lo, hi := LevelOf(l, before, key, now), LevelOf(l, mid, key, now);
      && 0.0 <= lo <= l.capacity && 0.0 <= hi <= l.capacity
      && (if key in Sweep(l, before, now) && key !in mid then hi <= lo + l.capacity else hi == lo)
  {
    if key in before {
      MulNonNeg(Elapsed(before[key].last, now), l.refill);
      if l.Idle(before[key], now) { IdleIsFull(l, before[key], now); }
    }
  }

  /** A request costs its key one token when admitted, and no other key anything. */
  lemma {:induction false} SpendLevels(l: Limits, mid: Buckets, c: Call<Key>, after: Buckets, key: Key)
    requires l.Valid() && Answered(l, mid, c, after) && InRange(l.capacity, mid)
    ensures LevelOf(l, after, key, c.now) == LevelOf(l, mid, key, c.now) - if Admits(c, key) then 1.0 else 0.0
    ensures LevelOf(l, mid, key, c.now) >= 0.0 ==> LevelOf(l, after, key, c.now) >= 0.0
  {
    SpendFacts(l.capacity, l.refill, Entry(l, mid, c.key, c.now), c.now);
  }

  /** The key's level just before and just after each request. */
  ghost function Before(l: Limits, r: Run, key: Key): seq<real>
    requires IsRun(l, r)
  {
    seq(|r.calls|, i requires 0 <= i < |r.calls| => LevelOf(l, r.maps[i], key, r.calls[i].now))
  }

  ghost function After(l: Limits, r: Run, key: Key): seq<real>
    requires IsRun(l, r)
  {
    seq(|r.calls|, i requires 0 <= i < |r.calls| => LevelOf(l, r.maps[i + 1], key, r.calls[i].now))
  }

  lemma {:induction false} CallLevels(l: Limits, r: Run, key: Key, i: nat)
    requires IsRun(l, r) && i < |r.calls|
    ensures var now := r.calls[i].now;
      var before, after := LevelOf(l, r.maps[i], key, now), LevelOf(l, r.maps[i + 1], key, now);
      && before <= l.capacity && after >= 0.0
      && after <= before + (if CapEvicts(l, r, key, i) then l.capacity else 0.0)
                  - (if Admits(r.calls[i], key) then 1.0 else 0.0)
  {
    assert StepAt(l, r, i);
    RangeAlways(l, r, i);
    EvictionLevels(l, r.maps[i], r.mids[i], key, r.calls[i].now);
    SpendLevels(l, r.mids[i], r.calls[i], r.maps[i + 1], key);
  }

  lemma {:induction false} BetweenCalls(l: Limits, r: Run, key: Key, i: nat)
    requires IsRun(l, r) && 0 < i < |r.calls|
    ensures LevelOf(l, r.maps[i], key, r.calls[i].now)
         <= LevelOf(l, r.maps[i], key, r.calls[i - 1].now) + Earned(l.refill, r.calls[i - 1].now, r.calls[i].now)
  {
    LevelOverTime(l.capacity, l.refill, r.maps[i], key, r.calls[i - 1].now, r.calls[i].now);
  }

  lemma {:induction false} RunIsMetered(l: Limits, r: Run, key: Key)
      returns (before: seq<real>, after: seq<real>, reset: seq<bool>)
    requires IsRun(l, r)
    ensures Metered(l.capacity, l.refill, r.calls, key, before, after, reset)
    ensures reset == Evicted(l, r, key)
  {
    before, after, reset := Before(l, r, key), After(l, r, key), Evicted(l, r, key);
    forall i | 0 <= i < |r.calls|
      ensures before[i] <= l.capacity && after[i] >= 0.0
      ensures after[i] <= before[i] + (if reset[i] then l.capacity else 0.0)
                          - if Admits(r.calls[i], key) then 1.0 else 0.0
    {
      CallLevels(l, r, key, i);
    }
    forall i | 0 < i < |r.calls|
      ensures before[i] <= after[i - 1] + Earned(l.refill, r.calls[i - 1].now, r.calls[i].now)
    {
      BetweenCalls(l, r, key, i);
    }
  }

  /** Stretch bound: any requests answered in a row, whatever their clock readings, admit a key
      at most `capacity` times, `refill` times more for every second the readings climb, and
      `capacity` times more for every time the cap evicted it. */
  lemma {:induction false} StretchBound(l: Limits, r: Run, key: Key, a: nat, b: nat)
    requires IsRun(l, r) && a < b <= |r.calls|
    ensures Admissions(r.calls[a..b], key) as real
         <= Means(l.capacity, l.refill, r.calls[a..b], Evicted(l, r, key)[a..b])
  {
    var before, after, reset := RunIsMetered(l, r, key);
    ClimbBound(l.capacity, l.refill, r.calls, key, before, after, reset, a, b);
  }

  /** Rate bound: with readings in order, in any window a key is admitted at most `capacity`
      plus the refill of the window, and `capacity` more for every time the cap evicted it
      there. */
  lemma {:induction false} RateBound(l: Limits, r: Run, key: Key, from: real, to: real)
    requires IsRun(l, r) && Chronological(r.calls) && from <= to
    ensures Admitted(r.calls, key, from, to) as real
         <= FullBuckets(Resets(r.calls, Evicted(l, r, key), from, to) + 1, l.capacity) + Earned(l.refill, from, to)
  {
    var before, after, reset := RunIsMetered(l, r, key);
    MeterBound(l.capacity, l.refill, r.calls, key, before, after, reset, from, to);
  }

  // ----- the exact answer ------------------------------------------------------------

  lemma {:induction false} CallExactly(l: Limits, r: Run, key: Key, i: nat)
    requires IsRun(l, r) && i < |r.calls|
    ensures var now := r.calls[i].now;
      var before, after := LevelOf(l, r.maps[i], key, now), LevelOf(l, r.maps[i + 1], key, now);
      && after == (if CapEvicts(l, r, key, i) then l.capacity
                   else before - if Admits(r.calls[i], key) then 1.0 else 0.0)
      && (r.calls[i].key == key ==> (r.calls[i].ok <==> before >= 1.0))
  {
    assert StepAt(l, r, i);
    RangeAlways(l, r, i);
    EvictionLevels(l, r.maps[i], r.mids[i], key, r.calls[i].now);
    SpendLevels(l, r.mids[i], r.calls[i], r.maps[i + 1], key);
  }

  lemma {:induction false} LevelsGrow(l: Limits, r: Run, key: Key, i: nat)
    requires IsRun(l, r) && Chronological(r.calls) && 0 < i < |r.calls|
    ensures LevelOf(l, r.maps[i], key, r.calls[i].now)
         == Min(l.capacity, LevelOf(l, r.maps[i], key, r.calls[i - 1].now)
                            + Earned(l.refill, r.calls[i - 1].now, r.calls[i].now))
  {
    RangeAlways(l, r, i);
    LevelGrows(l.capacity, l.refill, r.maps[i], key, r.calls[i - 1].now, r.calls[i].now);
  }

  lemma {:induction false} RunIsExact(l: Limits, r: Run, key: Key)
      returns (before: seq<real>, after: seq<real>, reset: seq<bool>)
    requires IsRun(l, r) && Chronological(r.calls)
    ensures ExactlyMetered(l.capacity, l.refill, r.calls, key, before, after, reset)
    ensures before == Before(l, r, key) && reset == Evicted(l, r, key)
  {
    before, after, reset := Before(l, r, key), After(l, r, key), Evicted(l, r, key);
    forall i | 0 <= i < |r.calls|
      ensures after[i] == if reset[i] then l.capacity else before[i] - if Admits(r.calls[i], key) then 1.0 else 0.0
    {
      CallExactly(l, r, key, i);
    }
    forall i | 0 < i < |r.calls|
      ensures before[i] == Min(l.capacity, after[i - 1] + Earned(l.refill, r.calls[i - 1].now, r.calls[i].now))
    {
      LevelsGrow(l, r, key, i);
    }
  }

  /** The exact answer: with readings in order a request is refused if and only if, since some
      earlier admission of its key (or at once, below a capacity of one), admissions left less
      than a token of the capacity and all the refill since, and the cap did not evict the key
      in between. */
  lemma {:induction false} RefusedIff(l: Limits, r: Run, i: nat)
    requires IsRun(l, r) && Chronological(r.calls) && i < |r.calls|
    ensures var key := r.calls[i].key;
      !r.calls[i].ok <==> Exhausted(l.capacity, l.refill, r.calls, key, Evicted(l, r, key), i)
  {
    var key := r.calls[i].key;
    var before, after, reset := RunIsExact(l, r, key);
    BelowOneIff(l.capacity, l.refill, r.calls, key, before, after, reset, i);
    CallExactly(l, r, key, i);
  }

  // ----- bounded memory --------------------------------------------------------------

  lemma {:induction false} SubMapSize(t: Buckets, s: Buckets)
    requires SubMap(t, s)
    ensures |t| <= |s|
  {
    assert t.Keys <= s.Keys;
    SubsetSize(t.Keys, s.Keys);
  }

  lemma {:induction false} StepSize(l: Limits, before: Buckets, mid: Buckets, c: Call<Key>, after: Buckets)
    requires l.Valid() && Acquires(l, before, mid, c, after) && |before| <= Room(l) + 1
    ensures |after| <= Room(l) + 1 && c.key in after
  {
    SubMapSize(Sweep(l, before, c.now), before);
    assert after.Keys == mid.Keys + {c.key};
    assert c.key in mid ==> after.Keys == mid.Keys;
  }

  /** After every request the map holds the requested key and at most `hardCap` keys (one,
      when the cap is zero). */
  lemma {:induction false} BoundedMemory(l: Limits, r: Run, k: nat)
    requires IsRun(l, r) && k < |r.maps|
    ensures |r.maps[k]| <= Room(l) + 1
    ensures k > 0 ==> r.calls[k - 1].key in r.maps[k]
  {
    if k > 0 {
      BoundedMemory(l, r, k - 1);
      assert StepAt(l, r, k - 1);
      StepSize(l, r.maps[k - 1], r.mids[k - 1], r.calls[k - 1], r.maps[k]);
    }
  }

  /** Every key the cap evicted was touched no later than any key that survived. */
  lemma {:induction false} EvictsOldestFirst(l: Limits, r: Run, i: nat, gone: Key, kept: Key)
    requires IsRun(l, r) && i < |r.calls|
    requires gone in Sweep(l, r.maps[i], r.calls[i].now) && gone !in r.maps[i + 1]
    ensures kept in r.mids[i] ==> r.maps[i][gone].last <= r.mids[i][kept].last
    ensures Chronological(r.calls) && kept in r.maps[i + 1] ==> r.maps[i][gone].last <= r.maps[i + 1][kept].last
  {
    assert StepAt(l, r, i);
    RangeAlways(l, r, i);
  }

  /** The cap evicts no more than it must: afterwards the map is full. */
  lemma {:induction false} EvictsNoMore(l: Limits, r: Run, i: nat, gone: Key)
    requires IsRun(l, r) && i < |r.calls| && CapEvicts(l, r, gone, i)
    ensures |r.maps[i + 1]| == if l.hardCap == 0 then 1 else l.hardCap
  {
    assert StepAt(l, r, i);
    var c := r.calls[i];
    assert c.key !in r.mids[i];
    assert r.maps[i + 1].Keys == r.mids[i].Keys + {c.key};
  }

  // ----- forgetting ------------------------------------------------------------------

  /** Before request `n`, call `j` was the last one of `key`. */
  ghost predicate LastCall(r: Run, key: Key, j: nat, n: nat) {
    j < n <= |r.calls| && r.calls[j].key == key && forall m :: j < m < n ==> r.calls[m].key != key
  }

  /** A bucket is stamped by its key's last call. */
  lemma {:induction false} StampIsLastCall(l: Limits, r: Run, key: Key, n: nat) returns (j: nat)
    requires IsRun(l, r) && n < |r.maps| && key in r.maps[n]
    ensures LastCall(r, key, j, n) && r.maps[n][key].last == r.calls[j].now
  {
    assert StepAt(l, r, n - 1);
    j := n - 1;
    if r.calls[n - 1].key != key {
      j := StampIsLastCall(l, r, key, n - 1);
    }
  }

  /** Idle keys are forgotten: a key whose last call was `capacity / refill` seconds before a
      request of another key is not stored after that request. */
  lemma {:induction false} ForgetsIdle(l: Limits, r: Run, key: Key, j: nat, n: nat)
    requires IsRun(l, r) && n < |r.calls| && r.calls[n].key != key && LastCall(r, key, j, n)
    requires l.refill > 0.0 && Elapsed(r.calls[j].now, r.calls[n].now) >= l.capacity / l.refill
    ensures key !in r.maps[n + 1]
  {
    assert StepAt(l, r, n);
    if key in r.maps[n] {
      var k := StampIsLastCall(l, r, key, n);
      assert k == j;
    }
  }
}
