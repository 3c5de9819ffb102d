/** The token bucket both limiters share, and the rate bound any metered key obeys.
    Instants and token counts are real numbers; a duration saturates at zero. */
module TokenBuckets {
  import opened Prelude

  datatype Bucket = Bucket(tokens: real, last: real)

  /** One answered request. */
  datatype Call<K> = Call(key: K, now: real, ok: bool)

  function Min(a: real, b: real): real {
    if a <= b then a else b
  }

  function Elapsed(last: real, now: real): real {
    if now >= last then now - last else 0.0
  }

  /** The tokens a bucket holds at `now`. */
  function Refilled(capacity: real, refill: real, b: Bucket, now: real): real {
    Min(b.tokens + Elapsed(b.last, now) * refill, capacity)
  }

  /** Refill, stamp, and spend a token when there is one. */
  function Spend(capacity: real, refill: real, b: Bucket, now: real): (r: (Bucket, bool)) {
    var tokens := Refilled(capacity, refill, b, now);
    if tokens >= 1.0 then (Bucket(tokens - 1.0, now), true) else (Bucket(tokens, now), false)
  }

  /** What `key` could spend at `now`: a key without a bucket starts full. */
  function Level<K>(capacity: real, refill: real, m: map<K, Bucket>, key: K, now: real): real {
    if key in m then Refilled(capacity, refill, m[key], now) else capacity
  }

  ghost predicate InRange<K>(capacity: real, m: map<K, Bucket>) {
    forall k :: k in m ==> 0.0 <= m[k].tokens <= capacity
  }

  ghost predicate TouchedBy<K>(m: map<K, Bucket>, now: real) {
    forall k :: k in m ==> m[k].last <= now
  }

  ghost predicate Chronological<K>(calls: seq<Call<K>>) {
    forall i, j :: 0 <= i < j < |calls| ==> calls[i].now <= calls[j].now
  }

  lemma {:induction false} Later<K>(m: map<K, Bucket>, calls: seq<Call<K>>, i: nat)
    requires Chronological(calls) && i < |calls| && TouchedBy(m, calls[i].now)
    ensures forall j :: i <= j < |calls| ==> TouchedBy(m, calls[j].now)
  {}

  lemma {:induction false} MulMono(a: real, b: real, c: real)
    requires a <= b && c >= 0.0
    ensures a * c <= b * c && c * a <= c * b
  {}

  lemma {:induction false} MulNonNeg(a: real, c: real)
    requires a >= 0.0 && c >= 0.0
    ensures a * c >= 0.0 && c * a >= 0.0
  {}

  /** Refill earned from one instant to another; going back earns nothing. */
  function Earned(refill: real, from: real, to: real): real {
    refill * Elapsed(from, to)
  }

  lemma {:induction false} Distributes(a: real, b: real, c: real)
    ensures (a + b) * c == a * c + c * b
  {}

  /** What a bucket has gained at two clock readings, before the cap. */
  lemma {:induction false} GainStep(b: Bucket, t: real, u: real, refill: real)
    requires refill >= 0.0
    ensures Gain(refill, b, u) <= Gain(refill, b, t) + Earned(refill, t, u) && Earned(refill, t, u) >= 0.0
    ensures t <= u ==> Gain(refill, b, t) <= Gain(refill, b, u)
    ensures b.last <= t <= u ==> Gain(refill, b, u) == Gain(refill, b, t) + Earned(refill, t, u)
  {
    var e, f, d := Elapsed(b.last, t), Elapsed(b.last, u), Elapsed(t, u);
    Distributes(e, d, refill);
    MulMono(f, e + d, refill);
    MulNonNeg(d, refill);
    if t <= u { MulMono(e, f, refill); }
    if b.last <= t <= u { assert f == e + d; }
  }

  function Gain(refill: real, b: Bucket, now: real): real {
    Elapsed(b.last, now) * refill
  }

  lemma {:induction false} CappedStep(tokens: real, e: real, f: real, gain: real, capacity: real)
    requires f <= e + gain && gain >= 0.0
    ensures Min(tokens + f, capacity) <= Min(tokens + e, capacity) + gain
    ensures e <= f ==> Min(tokens + e, capacity) <= Min(tokens + f, capacity)
    ensures f == e + gain ==> Min(tokens + f, capacity) == Min(capacity, Min(tokens + e, capacity) + gain)
  {}

  /** From one clock reading to the next a key gains at most the refill in between; while the
      clock goes forward it loses nothing. */
  lemma {:induction false} LevelOverTime<K>(capacity: real, refill: real, m: map<K, Bucket>, key: K, t: real, u: real)
    requires refill >= 0.0
    ensures var before, after := Level(capacity, refill, m, key, t), Level(capacity, refill, m, key, u);
      after <= before + Earned(refill, t, u) && (t <= u ==> before <= after)
  {
    if key in m {
      var b := m[key];
      GainStep(b, t, u, refill);
      CappedStep(b.tokens, Gain(refill, b, t), Gain(refill, b, u), Earned(refill, t, u), capacity);
    } else {
      MulNonNeg(Elapsed(t, u), refill);
    }
  }

  /** Going forward a level grows by exactly the refill, up to the capacity. */
  lemma {:induction false} LevelGrows<K>(capacity: real, refill: real, m: map<K, Bucket>, key: K, t: real, u: real)
    requires refill >= 0.0 && t <= u && (key in m ==> m[key].last <= t)
    ensures Level(capacity, refill, m, key, u)
         == Min(capacity, Level(capacity, refill, m, key, t) + Earned(refill, t, u))
  {
    if key in m {
      var b := m[key];
      GainStep(b, t, u, refill);
      CappedStep(b.tokens, Gain(refill, b, t), Gain(refill, b, u), Earned(refill, t, u), capacity);
    } else {
      MulNonNeg(Elapsed(t, u), refill);
    }
  }

  /** Spending keeps a bucket in range and costs one token exactly when it admits. */
  lemma {:induction false} SpendFacts(capacity: real, refill: real, b: Bucket, now: real)
    requires capacity >= 0.0 && refill >= 0.0 && 0.0 <= b.tokens <= capacity
    ensures var (c, ok) := Spend(capacity, refill, b, now);
      && c.last == now && 0.0 <= c.tokens <= capacity
      && c.tokens == Refilled(capacity, refill, b, now) - (if ok then 1.0 else 0.0)
      && Refilled(capacity, refill, c, now) == c.tokens
  {
    MulNonNeg(Elapsed(b.last, now), refill);
  }

  // ----- the rate bound --------------------------------------------------------------

  /** `before[i]` and `after[i]` are the key's level around call `i`: an admission costs one
      token, time between calls refills at the rate. When `reset[i]` the call forgets the key,
      which is then full. */
  ghost predicate Metered<K(!new)>(capacity: real, refill: real, calls: seq<Call<K>>, key: K,
                                   before: seq<real>, after: seq<real>, reset: seq<bool>)
  {
    && |before| == |after| == |reset| == |calls|
    && (forall i :: 0 <= i < |calls| ==> before[i] <= capacity && after[i] >= 0.0)
    && (forall i :: 0 <= i < |calls| ==>
          after[i] <= before[i] + (if reset[i] then capacity else 0.0) - if Admits(calls[i], key) then 1.0 else 0.0)
    && (forall i :: 0 < i < |calls| ==> before[i] <= after[i - 1] + Earned(refill, calls[i - 1].now, calls[i].now))
  }

  predicate Admits<K(==)>(c: Call<K>, key: K) {
    c.key == key && c.ok
  }

  /** The tokens of `n` full buckets. */
  function FullBuckets(n: nat, capacity: real): real {
    n as real * capacity
  }

  lemma {:induction false} OneMore(n: nat, capacity: real)
    ensures FullBuckets(n + 1, capacity) == FullBuckets(n, capacity) + capacity
  {
    assert (n as real + 1.0) * capacity == n as real * capacity + capacity;
  }

  /** Admissions of `key`. */
  ghost function Admissions<K(!new)>(calls: seq<Call<K>>, key: K): nat {
    if calls == [] then 0 else
    Admissions(DropLast(calls), key) + if Admits(Last(calls), key) then 1 else 0
  }

  /** How far the clock readings climb in all. */
  function Climb<K>(calls: seq<Call<K>>): (r: real)
    ensures r >= 0.0
  {
    if |calls| < 2 then 0.0 else
    Climb(DropLast(calls)) + Elapsed(calls[|calls| - 2].now, Last(calls).now)
  }

  function Trues(reset: seq<bool>): nat {
    if reset == [] then 0 else Trues(DropLast(reset)) + if Last(reset) then 1 else 0
  }

  /** Readings climb at least from the first to the last, and no further exactly when they are
      in order. */
  lemma {:induction false} ClimbInOrder<K(!new)>(calls: seq<Call<K>>)
    requires calls != []
    ensures Climb(calls) >= Last(calls).now - calls[0].now
    ensures Climb(calls) == Last(calls).now - calls[0].now <==> Chronological(calls)
  {
    if |calls| > 1 {
      var front, i := DropLast(calls), |calls| - 1;
      ClimbInOrder(front);
      assert Chronological(calls) ==> calls[i - 1].now <= calls[i].now && Chronological(front);
      if Chronological(front) && calls[i - 1].now <= calls[i].now {
        forall j | 0 <= j < i ensures calls[j].now <= calls[i].now {
          assert front[j].now <= front[i - 1].now;
        }
      }
    }
  }

  lemma {:induction false} MeteredFront<K(!new)>(capacity: real, refill: real, calls: seq<Call<K>>, key: K,
                              before: seq<real>, after: seq<real>, reset: seq<bool>, a: nat, b: nat)
    requires Metered(capacity, refill, calls, key, before, after, reset) && a <= b <= |calls|
    ensures Metered(capacity, refill, calls[a..b], key, before[a..b], after[a..b], reset[a..b])
  {}

  /** The tokens a stretch of calls had to give: a full bucket, refill and resets. */
  function Means<K>(capacity: real, refill: real, calls: seq<Call<K>>, reset: seq<bool>): real {
    FullBuckets(Trues(reset) + 1, capacity) + refill * Climb(calls)
  }

  lemma {:induction false} MeansGrow<K>(capacity: real, refill: real, calls: seq<Call<K>>, reset: seq<bool>)
    requires |reset| == |calls| > 1
    ensures Means(capacity, refill, calls, reset) == Means(capacity, refill, DropLast(calls), DropLast(reset))
      + Earned(refill, calls[|calls| - 2].now, Last(calls).now) + if Last(reset) then capacity else 0.0
  {
    var climb, step := Climb(DropLast(calls)), Elapsed(calls[|calls| - 2].now, Last(calls).now);
    assert refill * (climb + step) == refill * climb + refill * step;
    OneMore(Trues(DropLast(reset)) + 1, capacity);
  }

  lemma {:induction false} MeansStart<K>(capacity: real, refill: real, calls: seq<Call<K>>, reset: seq<bool>)
    requires |reset| == |calls| == 1
    ensures Means(capacity, refill, calls, reset) == capacity + if reset[0] then capacity else 0.0
  {
    assert Trues(DropLast(reset)) == 0;
    OneMore(0, capacity);
    OneMore(1, capacity);
  }

  /** The same, when nothing was reset. */
  function Unreset<K>(capacity: real, refill: real, calls: seq<Call<K>>): real {
    capacity + refill * Climb(calls)
  }

  lemma {:induction false} MeansUnreset<K>(capacity: real, refill: real, calls: seq<Call<K>>, reset: seq<bool>)
    requires Trues(reset) == 0
    ensures Means(capacity, refill, calls, reset) == Unreset(capacity, refill, calls)
  {
    OneMore(0, capacity);
  }

  ghost predicate WithinMeans<K(!new)>(capacity: real, refill: real, calls: seq<Call<K>>, key: K,
                                       after: seq<real>, reset: seq<bool>)
    requires |after| == |calls| > 0
  {
    Admissions(calls, key) as real + Last(after) <= Means(capacity, refill, calls, reset)
  }

  lemma {:induction false} ClimbStep<K(!new)>(capacity: real, refill: real, calls: seq<Call<K>>, key: K,
                           before: seq<real>, after: seq<real>, reset: seq<bool>)
    requires Metered(capacity, refill, calls, key, before, after, reset) && |calls| > 1
    requires WithinMeans(capacity, refill, DropLast(calls), key, DropLast(after), DropLast(reset))
    ensures WithinMeans(capacity, refill, calls, key, after, reset)
  {
    var i := |calls| - 1;
    MeansGrow(capacity, refill, calls, reset);
    assert before[i] <= after[i - 1] + Earned(refill, calls[i - 1].now, calls[i].now);
    assert Last(DropLast(after)) == after[i - 1];
  }

  lemma {:induction false} ClimbPrefix<K(!new)>(capacity: real, refill: real, calls: seq<Call<K>>, key: K,
                                                before: seq<real>, after: seq<real>, reset: seq<bool>)
    requires Metered(capacity, refill, calls, key, before, after, reset) && calls != []
    ensures WithinMeans(capacity, refill, calls, key, after, reset)
  {
    if |calls| == 1 {
      MeansStart(capacity, refill, calls, reset);
      assert Admissions(DropLast(calls), key) == 0;
    } else {
      var i := |calls| - 1;
      MeteredFront(capacity, refill, calls, key, before, after, reset, 0, i);
      ClimbPrefix(capacity, refill, DropLast(calls), key, DropLast(before), DropLast(after), DropLast(reset));
      ClimbStep(capacity, refill, calls, key, before, after, reset);
    }
  }

  /** Any stretch of calls, in the order they were answered and whatever their clock readings:
      a metered key is admitted at most `capacity` times, `refill` times more for every second
      the readings climb, and `capacity` times more for every reset. */
  lemma {:induction false} ClimbBound<K(!new)>(capacity: real, refill: real, calls: seq<Call<K>>, key: K,
                            before: seq<real>, after: seq<real>, reset: seq<bool>, a: nat, b: nat)
    requires Metered(capacity, refill, calls, key, before, after, reset) && a < b <= |calls|
    ensures Admissions(calls[a..b], key) as real <= Means(capacity, refill, calls[a..b], reset[a..b])
  {
    MeteredFront(capacity, refill, calls, key, before, after, reset, a, b);
    ClimbPrefix(capacity, refill, calls[a..b], key, before[a..b], after[a..b], reset[a..b]);
    assert Last(after[a..b]) >= 0.0;
  }

  // ----- windows of time -------------------------------------------------------------

  /** Admissions of `key` in `[from, to]`. */
  ghost function Admitted<K(!new)>(calls: seq<Call<K>>, key: K, from: real, to: real): nat {
    if calls == [] then 0 else
    var c := Last(calls);
    Admitted(DropLast(calls), key, from, to) + if c.key == key && c.ok && from <= c.now <= to then 1 else 0
  }

  /** The resets in `[from, to]`. */
  ghost function Resets<K>(calls: seq<Call<K>>, reset: seq<bool>, from: real, to: real): nat
    requires |reset| == |calls|
  {
    if calls == [] then 0 else
    Resets(DropLast(calls), DropLast(reset), from, to)
    + if Last(reset) && from <= Last(calls).now <= to then 1 else 0
  }

  /** The calls of the window are those from `a` up to `b`. */
  ghost predicate IsWindow<K(!new)>(calls: seq<Call<K>>, a: nat, b: nat, from: real, to: real) {
    a <= b <= |calls| && forall i :: 0 <= i < |calls| ==> (from <= calls[i].now <= to <==> a <= i < b)
  }

  /** When readings are in order, the calls of a window are a stretch of them. */
  lemma {:induction false} FindWindow<K(!new)>(calls: seq<Call<K>>, from: real, to: real) returns (a: nat, b: nat)
    requires Chronological(calls)
    ensures IsWindow(calls, a, b, from, to)
  {
    a, b := 0, 0;
    if calls != [] {
      var i := |calls| - 1;
      a, b := FindWindow(DropLast(calls), from, to);
      assert forall j :: 0 <= j < i ==> DropLast(calls)[j] == calls[j];
      if from <= calls[i].now <= to {
        if a == b {
          a := i;
        } else {
          forall j | a <= j < i ensures from <= calls[j].now <= to {
            assert calls[a].now <= calls[j].now <= calls[i].now;
          }
        }
        b := i + 1;
      }
    }
  }

  function Least(a: nat, b: nat): nat {
    if a <= b then a else b
  }

  /** The window without the last call. */
  lemma {:induction false} WindowFront<K(!new)>(calls: seq<Call<K>>, a: nat, b: nat, from: real, to: real)
    requires calls != [] && IsWindow(calls, a, b, from, to)
    ensures var i := |calls| - 1;
      && IsWindow(DropLast(calls), Least(a, i), Least(b, i), from, to)
      && (from <= Last(calls).now <= to <==> a <= i < b)
  {
    var front := DropLast(calls);
    assert forall j :: 0 <= j < |front| ==> front[j] == calls[j];
  }

  /** A stretch, or its front and the last element when it reaches that far. */
  lemma {:induction false} StretchFront<T>(s: seq<T>, a: nat, b: nat)
    requires s != [] && a <= b <= |s|
    ensures var i := |s| - 1;
      s[a..b] == DropLast(s)[Least(a, i)..Least(b, i)] + if a <= i < b then [Last(s)] else []
  {}

  lemma {:induction false} AdmittedSnoc<K(!new)>(calls: seq<Call<K>>, c: Call<K>, key: K, from: real, to: real)
    ensures Admitted(calls + [c], key, from, to)
         == Admitted(calls, key, from, to) + if Admits(c, key) && from <= c.now <= to then 1 else 0
  {
    assert DropLast(calls + [c]) == calls;
  }

  lemma {:induction false} AdmissionsSnoc<K(!new)>(calls: seq<Call<K>>, c: Call<K>, key: K)
    ensures Admissions(calls + [c], key) == Admissions(calls, key) + if Admits(c, key) then 1 else 0
  {
    assert DropLast(calls + [c]) == calls;
  }

  lemma {:induction false} CountAdmitted<K(!new)>(calls: seq<Call<K>>, key: K, a: nat, b: nat, from: real, to: real)
    requires IsWindow(calls, a, b, from, to)
    ensures Admitted(calls, key, from, to) == Admissions(calls[a..b], key)
  {
    if calls == [] {
      assert calls[a..b] == [];
    } else {
      var i, front, c := |calls| - 1, DropLast(calls), Last(calls);
      WindowFront(calls, a, b, from, to);
      CountAdmitted(front, key, Least(a, i), Least(b, i), from, to);
      StretchFront(calls, a, b);
      assert calls == front + [c];
      AdmittedSnoc(front, c, key, from, to);
      AdmissionsSnoc(front[Least(a, i)..Least(b, i)], c, key);
      assert front[Least(a, i)..Least(b, i)] + [] == front[Least(a, i)..Least(b, i)];
    }
  }

  lemma {:induction false} TruesSnoc(reset: seq<bool>, t: bool)
    ensures Trues(reset + [t]) == Trues(reset) + if t then 1 else 0
  {
    assert DropLast(reset + [t]) == reset;
  }

  lemma {:induction false} CountResets<K(!new)>(calls: seq<Call<K>>, reset: seq<bool>,
                                                a: nat, b: nat, from: real, to: real)
    requires |reset| == |calls| && IsWindow(calls, a, b, from, to)
    ensures Resets(calls, reset, from, to) == Trues(reset[a..b])
  {
    if calls == [] {
      assert reset[a..b] == [];
    } else {
      var i, was := |calls| - 1, DropLast(reset);
      WindowFront(calls, a, b, from, to);
      CountResets(DropLast(calls), was, Least(a, i), Least(b, i), from, to);
      StretchFront(reset, a, b);
      TruesSnoc(was[Least(a, i)..Least(b, i)], Last(reset));
      assert was[Least(a, i)..Least(b, i)] + [] == was[Least(a, i)..Least(b, i)];
    }
  }

  lemma {:induction false} StretchInOrder<K(!new)>(calls: seq<Call<K>>, a: nat, b: nat)
    requires Chronological(calls) && a <= b <= |calls|
    ensures Chronological(calls[a..b])
  {}

  lemma {:induction false} MeansWithin<K>(capacity: real, refill: real, calls: seq<Call<K>>, reset: seq<bool>,
                                          from: real, to: real)
    requires refill >= 0.0 && Climb(calls) <= Elapsed(from, to)
    ensures Means(capacity, refill, calls, reset) <= FullBuckets(Trues(reset) + 1, capacity) + Earned(refill, from, to)
  {
    var full, climb, span := FullBuckets(Trues(reset) + 1, capacity), refill * Climb(calls), Earned(refill, from, to);
    MulMono(Climb(calls), Elapsed(from, to), refill);
    assert climb <= span;
    assert Means(capacity, refill, calls, reset) == full + climb;
  }

  /** In a window the readings climb no further than its length. */
  lemma {:induction false} WindowMeans<K(!new)>(capacity: real, refill: real, calls: seq<Call<K>>, reset: seq<bool>,
                             a: nat, b: nat, from: real, to: real)
    requires Chronological(calls) && IsWindow(calls, a, b, from, to) && a < b && |reset| == |calls| && refill >= 0.0
    ensures Means(capacity, refill, calls[a..b], reset[a..b])
         <= FullBuckets(Trues(reset[a..b]) + 1, capacity) + Earned(refill, from, to)
  {
    assert from <= calls[a].now && calls[b - 1].now <= to;
    StretchInOrder(calls, a, b);
    ClimbInOrder(calls[a..b]);
    assert Last(calls[a..b]) == calls[b - 1] && calls[a..b][0] == calls[a];
    MeansWithin(capacity, refill, calls[a..b], reset[a..b], from, to);
  }

  /** Calls in order: in any window a metered key is admitted at most
      `capacity + refill * (to - from)` times, and `capacity` times more for every reset. */
  lemma {:induction false} MeterBound<K(!new)>(
      capacity: real, refill: real, calls: seq<Call<K>>, key: K,
      before: seq<real>, after: seq<real>, reset: seq<bool>, from: real, to: real)
    requires Metered(capacity, refill, calls, key, before, after, reset) && Chronological(calls)
    requires capacity >= 0.0 && refill >= 0.0 && from <= to
    ensures Admitted(calls, key, from, to) as real
         <= FullBuckets(Resets(calls, reset, from, to) + 1, capacity) + Earned(refill, from, to)
  {
    var a, b := FindWindow(calls, from, to);
    CountAdmitted(calls, key, a, b, from, to);
    CountResets(calls, reset, a, b, from, to);
    if a < b {
      ClimbBound(capacity, refill, calls, key, before, after, reset, a, b);
      WindowMeans(capacity, refill, calls, reset, a, b, from, to);
    } else {
      NonNegMeans(Resets(calls, reset, from, to) + 1, capacity, refill, from, to);
    }
  }

  lemma {:induction false} NonNegMeans(n: nat, capacity: real, refill: real, from: real, to: real)
    requires capacity >= 0.0 && refill >= 0.0
    ensures FullBuckets(n, capacity) + Earned(refill, from, to) >= 0.0
  {
    MulNonNeg(Elapsed(from, to), refill);
    MulNonNeg(n as real, capacity);
  }

  // ----- the exact answer ------------------------------------------------------------

  /** A key that starts full, pays a token per admission, gets all its refill, and is full
      again whenever it is forgotten. */
  ghost predicate ExactlyMetered<K(!new)>(capacity: real, refill: real, calls: seq<Call<K>>, key: K,
                                          before: seq<real>, after: seq<real>, reset: seq<bool>)
  {
    && |before| == |after| == |reset| == |calls|
    && (calls != [] ==> before[0] == capacity)
    && (forall i :: 0 <= i < |calls| ==>
          after[i] == if reset[i] then capacity else before[i] - if Admits(calls[i], key) then 1.0 else 0.0)
    && (forall i :: 0 < i < |calls| ==>
          before[i] == Min(capacity, after[i - 1] + Earned(refill, calls[i - 1].now, calls[i].now)))
  }

  /** What a key full at call `j` has left at call `i`. */
  ghost function Spare<K(!new)>(capacity: real, refill: real, calls: seq<Call<K>>, key: K, j: nat, i: nat): real
    requires j <= i < |calls|
  {
    capacity + Earned(refill, calls[j].now, calls[i].now) - Admissions(calls[j..i], key) as real
  }

  ghost predicate Unforgotten(reset: seq<bool>, j: nat, i: nat)
    requires j <= i <= |reset|
  {
    forall k :: j <= k < i ==> !reset[k]
  }

  lemma {:induction false} SpareAtStart<K(!new)>(capacity: real, refill: real, calls: seq<Call<K>>, key: K, i: nat)
    requires i < |calls|
    ensures Spare(capacity, refill, calls, key, i, i) == capacity
  {
    assert calls[i..i] == [];
  }

  lemma {:induction false} SpareOn<K(!new)>(capacity: real, refill: real, calls: seq<Call<K>>, key: K, j: nat, i: nat)
    requires j < i < |calls| && calls[j].now <= calls[i - 1].now <= calls[i].now
    ensures Spare(capacity, refill, calls, key, j, i) == Spare(capacity, refill, calls, key, j, i - 1)
      - (if Admits(calls[i - 1], key) then 1.0 else 0.0) + Earned(refill, calls[i - 1].now, calls[i].now)
  {
    assert calls[j..i] == calls[j..i - 1] + [calls[i - 1]];
    AdmissionsSnoc(calls[j..i - 1], calls[i - 1], key);
    var a, b := calls[i - 1].now - calls[j].now, calls[i].now - calls[i - 1].now;
    assert refill * (a + b) == refill * a + refill * b;
  }

  /** A level is never above what is spare since any call from which the key was remembered. */
  lemma {:induction false} LevelAtMost<K(!new)>(
      capacity: real, refill: real, calls: seq<Call<K>>, key: K,
      before: seq<real>, after: seq<real>, reset: seq<bool>, j: nat, i: nat)
    requires ExactlyMetered(capacity, refill, calls, key, before, after, reset) && Chronological(calls)
    requires j <= i < |calls| && Unforgotten(reset, j, i)
    ensures before[i] <= Spare(capacity, refill, calls, key, j, i)
    decreases i
  {
    SpareAtStart(capacity, refill, calls, key, i);
    if i > 0 {
      assert before[i] == Min(capacity, after[i - 1] + Earned(refill, calls[i - 1].now, calls[i].now));
    }
    if j < i {
      LevelAtMost(capacity, refill, calls, key, before, after, reset, j, i - 1);
      SpareOn(capacity, refill, calls, key, j, i);
      assert !reset[i - 1];
      assert after[i - 1] == before[i - 1] - if Admits(calls[i - 1], key) then 1.0 else 0.0;
    }
  }

  /** Call `i` itself, or an earlier admission of the key from which it was remembered. */
  ghost predicate Since<K(!new)>(calls: seq<Call<K>>, key: K, reset: seq<bool>, j: nat, i: nat)
    requires |reset| == |calls|
  {
    j <= i < |calls| && Unforgotten(reset, j, i) && (j == i || Admits(calls[j], key))
  }

  /** And it is just what is spare since one of them. */
  lemma {:induction false} LevelAttained<K(!new)>(
      capacity: real, refill: real, calls: seq<Call<K>>, key: K,
      before: seq<real>, after: seq<real>, reset: seq<bool>, i: nat) returns (j: nat)
    requires ExactlyMetered(capacity, refill, calls, key, before, after, reset) && Chronological(calls)
    requires refill >= 0.0 && i < |calls|
    ensures Since(calls, key, reset, j, i) && before[i] == Spare(capacity, refill, calls, key, j, i)
  {
    j := i;
    SpareAtStart(capacity, refill, calls, key, i);
    if before[i] != capacity {
      j := LevelAttained(capacity, refill, calls, key, before, after, reset, i - 1);
      MulNonNeg(Elapsed(calls[i - 1].now, calls[i].now), refill);
      SpareAtStart(capacity, refill, calls, key, i - 1);
      SpareOn(capacity, refill, calls, key, j, i);
      assert before[i] == Min(capacity, after[i - 1] + Earned(refill, calls[i - 1].now, calls[i].now));
    }
  }

  /** Some call since which the key's admissions left less than a token of its capacity and
      refill. */
  ghost predicate Exhausted<K(!new)>(capacity: real, refill: real, calls: seq<Call<K>>, key: K,
                                     reset: seq<bool>, i: nat)
    requires |reset| == |calls|
  {
    exists j :: Since(calls, key, reset, j, i) && Spare(capacity, refill, calls, key, j, i) < 1.0
  }

  /** A key's level is below one token exactly when it is exhausted. */
  lemma {:induction false} BelowOneIff<K(!new)>(
      capacity: real, refill: real, calls: seq<Call<K>>, key: K,
      before: seq<real>, after: seq<real>, reset: seq<bool>, i: nat)
    requires ExactlyMetered(capacity, refill, calls, key, before, after, reset) && Chronological(calls)
    requires refill >= 0.0 && i < |calls|
    ensures before[i] < 1.0 <==> Exhausted(capacity, refill, calls, key, reset, i)
  {
    var k := LevelAttained(capacity, refill, calls, key, before, after, reset, i);
    if Exhausted(capacity, refill, calls, key, reset, i) {
      var j :| Since(calls, key, reset, j, i) && Spare(capacity, refill, calls, key, j, i) < 1.0;
      LevelAtMost(capacity, refill, calls, key, before, after, reset, j, i);
    }
  }
}
