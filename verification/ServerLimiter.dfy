/** muxrd's per-IP limiter. A request holds its bucket's lock while it is answered, but read
    the clock before, so the readings need not be in order. */
module ServerLimiter {
  import opened Prelude
  import opened TokenBuckets

  type Ip = string

  const MAX_TRACKED_IPS: nat := 65_536

  /** As `from_env` guards it: a positive rate and room for at least one request. */
  datatype Config = Config(rps: real, burst: real) {
    predicate Valid() {
      rps > 0.0 && burst >= 1.0
    }
  }

  datatype View = View(buckets: map<Ip, Bucket>, checks: nat)

  function Entry(cfg: Config, m: map<Ip, Bucket>, ip: Ip, now: real): Bucket {
    if ip in m then m[ip] else Bucket(cfg.burst, now)
  }

  function Sweep(cfg: Config, m: map<Ip, Bucket>): map<Ip, Bucket> {
    map k | k in m && m[k].tokens < cfg.burst :: m[k]
  }

  /** The state after one request; the sweep is considered every `MAX_TRACKED_IPS` checks. */
  function After(cfg: Config, v: View, ip: Ip, now: real): View {
    var m := v.buckets[ip := Spend(cfg.burst, cfg.rps, Entry(cfg, v.buckets, ip, now), now).0];
    View(if v.checks % MAX_TRACKED_IPS == 0 && |m| > MAX_TRACKED_IPS then Sweep(cfg, m) else m, v.checks + 1)
  }

  class RateLimiter {
    const cfg: Config
    var buckets: map<Ip, Bucket>
    var checks: nat

    ghost function Abs(): View
      reads this
    {
      View(buckets, checks)
    }

    constructor (cfg: Config)
      ensures this.cfg == cfg && Abs() == View(map[], 0)
    {
      this.cfg := cfg;
      buckets, checks := map[], 0;
    }

    /** `allow`. */
    method Allow(ip: Ip, now: real) returns (admitted: bool)
      modifies this
      ensures Abs() == After(cfg, old(Abs()), ip, now)
      ensures admitted == Spend(cfg.burst, cfg.rps, Entry(cfg, old(buckets), ip, now), now).1
    {
      var b := if ip in buckets then buckets[ip] else Bucket(cfg.burst, now);
      var tokens := Refilled(cfg.burst, cfg.rps, b, now);
      admitted := tokens >= 1.0;
      if admitted {
        tokens := tokens - 1.0;
      }
      buckets := buckets[ip := Bucket(tokens, now)];
      if checks % MAX_TRACKED_IPS == 0 && |buckets| > MAX_TRACKED_IPS {
        buckets := map k | k in buckets && buckets[k].tokens < cfg.burst :: buckets[k];
      }
      checks := checks + 1;
    }
  }

  // ----- runs ------------------------------------------------------------------------

  datatype Run = Run(views: seq<View>, calls: seq<Call<Ip>>)

  ghost predicate StepAt(cfg: Config, r: Run, i: nat)
    requires i < |r.calls| && |r.views| == |r.calls| + 1
  {
    var v, c := r.views[i], r.calls[i];
    && r.views[i + 1] == After(cfg, v, c.key, c.now)
    && c.ok == Spend(cfg.burst, cfg.rps, Entry(cfg, v.buckets, c.key, c.now), c.now).1
  }

  ghost predicate IsRun(cfg: Config, r: Run) {
    && cfg.Valid() && |r.views| == |r.calls| + 1
    && r.views[0] == View(map[], 0)
    && forall i :: 0 <= i < |r.calls| ==> StepAt(cfg, r, i)
  }

  /** A stored bucket has just answered a request, so it is never full. */
  ghost predicate NeverFull(cfg: Config, m: map<Ip, Bucket>) {
    forall k :: k in m ==> 0.0 <= m[k].tokens < cfg.burst
  }

  lemma {:induction false} StepKeeps(cfg: Config, v: View, ip: Ip, now: real)
    requires cfg.Valid() && NeverFull(cfg, v.buckets)
    ensures var (b, ok) := Spend(cfg.burst, cfg.rps, Entry(cfg, v.buckets, ip, now), now);
      && After(cfg, v, ip, now).buckets == v.buckets[ip := b]
      && NeverFull(cfg, v.buckets[ip := b])
      && Level(cfg.burst, cfg.rps, v.buckets[ip := b], ip, now)
         == Level(cfg.burst, cfg.rps, v.buckets, ip, now) - (if ok then 1.0 else 0.0)
  {
    var e := Entry(cfg, v.buckets, ip, now);
    SpendFacts(cfg.burst, cfg.rps, e, now);
    var m := v.buckets[ip := Spend(cfg.burst, cfg.rps, e, now).0];
    assert NeverFull(cfg, m);
    assert Sweep(cfg, m) == m;
  }

  /** The addresses that made some calls. */
  function Seen(calls: seq<Call<Ip>>): set<Ip> {
    set i | 0 <= i < |calls| :: calls[i].key
  }

  lemma {:induction false} SeenSnoc(calls: seq<Call<Ip>>, c: Call<Ip>)
    ensures Seen(calls + [c]) == Seen(calls) + {c.key}
  {
    var all := calls + [c];
    assert forall i :: 0 <= i < |calls| ==> all[i] == calls[i];
    assert all[|calls|] == c;
    forall ip | ip in Seen(calls) + {c.key} ensures ip in Seen(all) {
      if ip != c.key {
        var i :| 0 <= i < |calls| && calls[i].key == ip;
        assert all[i].key == ip;
      }
    }
  }

  /** The sweep never removes a bucket: the map holds exactly the addresses seen so far. */
  lemma {:induction false} SweepRemovesNothing(cfg: Config, r: Run, k: nat)
    requires IsRun(cfg, r) && k < |r.views|
    ensures r.views[k].buckets.Keys == Seen(r.calls[..k]) && r.views[k].checks == k
    ensures NeverFull(cfg, r.views[k].buckets)
  {
    if k > 0 {
      SweepRemovesNothing(cfg, r, k - 1);
      assert StepAt(cfg, r, k - 1);
      var c, v := r.calls[k - 1], r.views[k - 1];
      StepKeeps(cfg, v, c.key, c.now);
      SeenSnoc(r.calls[..k - 1], c);
      assert r.calls[..k] == r.calls[..k - 1] + [c];
    }
  }

  /** So the map stays within the limit the sweep is for exactly while no more addresses than
      that have called. */
  lemma {:induction false} WithinLimitIff(cfg: Config, r: Run, k: nat)
    requires IsRun(cfg, r) && k < |r.views|
    ensures |r.views[k].buckets| <= MAX_TRACKED_IPS <==> |Seen(r.calls[..k])| <= MAX_TRACKED_IPS
  {
    SweepRemovesNothing(cfg, r, k);
    assert |r.views[k].buckets| == |r.views[k].buckets.Keys|;
  }

  function Address(n: nat): Ip {
    seq(n, _ => '1')
  }

  /** Address after address calls, once each. */
  ghost predicate InTurn(calls: seq<Call<Ip>>) {
    forall i :: 0 <= i < |calls| ==> calls[i].key == Address(i) && calls[i].now == 0.0
  }

  lemma {:induction false} InTurnSeen(calls: seq<Call<Ip>>)
    requires InTurn(calls)
    ensures |Seen(calls)| == |calls|
  {
    if calls != [] {
      InTurnSeen(DropLast(calls));
      assert calls == DropLast(calls) + [Last(calls)];
      SeenSnoc(DropLast(calls), Last(calls));
      assert |Address(|calls| - 1)| == |calls| - 1;
      assert forall i :: 0 <= i < |calls| - 1 ==> |calls[i].key| == i;
      assert Last(calls).key !in Seen(DropLast(calls));
    }
  }

  lemma {:induction false} CallInTurn(cfg: Config, n: nat) returns (r: Run)
    requires cfg.Valid()
    ensures IsRun(cfg, r) && |r.calls| == n && InTurn(r.calls)
  {
    if n == 0 {
      r := Run([View(map[], 0)], []);
    } else {
      var before := CallInTurn(cfg, n - 1);
      var v, ip := Last(before.views), Address(n - 1);
      var c := Call(ip, 0.0, Spend(cfg.burst, cfg.rps, Entry(cfg, v.buckets, ip, 0.0), 0.0).1);
      r := Run(before.views + [After(cfg, v, ip, 0.0)], before.calls + [c]);
      forall i | 0 <= i < n ensures StepAt(cfg, r, i) {
        if i < n - 1 { assert StepAt(cfg, before, i); }
      }
    }
  }

  /** Nothing bounds the map: for every n, n addresses calling once each are all tracked. */
  lemma {:induction false} MemoryIsUnbounded(cfg: Config, n: nat) returns (r: Run)
    requires cfg.Valid()
    ensures IsRun(cfg, r) && |r.calls| == n && |Last(r.views).buckets| == n
  {
    r := CallInTurn(cfg, n);
    SweepRemovesNothing(cfg, r, n);
    InTurnSeen(r.calls);
    assert r.calls[..n] == r.calls;
    assert |Last(r.views).buckets| == |Last(r.views).buckets.Keys|;
  }

  ghost function LevelAt(cfg: Config, r: Run, ip: Ip, i: nat, now: real): real
    requires IsRun(cfg, r) && i < |r.views|
  {
    Level(cfg.burst, cfg.rps, r.views[i].buckets, ip, now)
  }

  ghost function Before(cfg: Config, r: Run, ip: Ip): seq<real>
    requires IsRun(cfg, r)
  {
    seq(|r.calls|, i requires 0 <= i < |r.calls| => LevelAt(cfg, r, ip, i, r.calls[i].now))
  }

  ghost function Afterwards(cfg: Config, r: Run, ip: Ip): seq<real>
    requires IsRun(cfg, r)
  {
    seq(|r.calls|, i requires 0 <= i < |r.calls| => LevelAt(cfg, r, ip, i + 1, r.calls[i].now))
  }

  lemma {:induction false} StepLevels(cfg: Config, r: Run, ip: Ip, i: nat)
    requires IsRun(cfg, r) && i < |r.calls|
    ensures var c := r.calls[i];
      var lo, hi := LevelAt(cfg, r, ip, i + 1, c.now), LevelAt(cfg, r, ip, i, c.now);
      0.0 <= lo && hi <= cfg.burst && lo == hi - if c.key == ip && c.ok then 1.0 else 0.0
  {
    var c, v := r.calls[i], r.views[i];
    assert StepAt(cfg, r, i);
    SweepRemovesNothing(cfg, r, i);
    StepKeeps(cfg, v, c.key, c.now);
    SpendFacts(cfg.burst, cfg.rps, Entry(cfg, v.buckets, ip, c.now), c.now);
  }

  /** Nothing is ever forgotten. */
  ghost predicate NoneSet(reset: seq<bool>) {
    forall i :: 0 <= i < |reset| ==> !reset[i]
  }

  lemma {:induction false} NoResets(calls: seq<Call<Ip>>, reset: seq<bool>, from: real, to: real)
    requires |reset| == |calls| && NoneSet(reset)
    ensures Resets(calls, reset, from, to) == 0
  {
    if calls != [] { NoResets(DropLast(calls), DropLast(reset), from, to); }
  }

  lemma {:induction false} RunIsMetered(cfg: Config, r: Run, ip: Ip)
      returns (before: seq<real>, after: seq<real>, reset: seq<bool>)
    requires IsRun(cfg, r)
    ensures Metered(cfg.burst, cfg.rps, r.calls, ip, before, after, reset)
    ensures NoneSet(reset)
  {
    before, after, reset := Before(cfg, r, ip), Afterwards(cfg, r, ip), seq(|r.calls|, _ => false);
    forall i | 0 <= i < |r.calls|
      ensures before[i] <= cfg.burst && after[i] >= 0.0
      ensures after[i] == before[i] - if Admits(r.calls[i], ip) then 1.0 else 0.0
    {
      StepLevels(cfg, r, ip, i);
    }
    forall i | 0 < i < |r.calls|
      ensures before[i] <= after[i - 1] + Earned(cfg.rps, r.calls[i - 1].now, r.calls[i].now)
    {
      LevelOverTime(cfg.burst, cfg.rps, r.views[i].buckets, ip, r.calls[i - 1].now, r.calls[i].now);
    }
  }

  lemma {:induction false} NoTrues(reset: seq<bool>, a: nat, b: nat)
    requires NoneSet(reset) && a <= b <= |reset|
    ensures Trues(reset[a..b]) == 0
  {
    if a < b {
      NoTrues(reset, a, b - 1);
      assert DropLast(reset[a..b]) == reset[a..b - 1];
    }
  }

  /** Stretch bound: any requests answered in a row, whatever their clock readings, admit an
      address at most `burst` times and `rps` times more for every second the readings climb. */
  lemma {:induction false} StretchBound(cfg: Config, r: Run, ip: Ip, a: nat, b: nat)
    requires IsRun(cfg, r) && a < b <= |r.calls|
    ensures Admissions(r.calls[a..b], ip) as real <= Unreset(cfg.burst, cfg.rps, r.calls[a..b])
  {
    var before, after, reset := RunIsMetered(cfg, r, ip);
    ClimbBound(cfg.burst, cfg.rps, r.calls, ip, before, after, reset, a, b);
    NoTrues(reset, a, b);
    MeansUnreset(cfg.burst, cfg.rps, r.calls[a..b], reset[a..b]);
  }

  /** Rate bound: with readings in order, an address is admitted at most `burst` plus `rps` per
      second of the window. */
  lemma {:induction false} RateBound(cfg: Config, r: Run, ip: Ip, from: real, to: real)
    requires IsRun(cfg, r) && Chronological(r.calls) && from <= to
    ensures Admitted(r.calls, ip, from, to) as real <= cfg.burst + Earned(cfg.rps, from, to)
  {
    var before, after, reset := RunIsMetered(cfg, r, ip);
    MeterBound(cfg.burst, cfg.rps, r.calls, ip, before, after, reset, from, to);
    NoResets(r.calls, reset, from, to);
  }

  // ----- the exact answer ------------------------------------------------------------

  /** While readings are in order no bucket is stamped later than the last request. */
  lemma {:induction false} StampsInOrder(cfg: Config, r: Run, k: nat)
    requires IsRun(cfg, r) && Chronological(r.calls) && 0 < k < |r.views|
    ensures TouchedBy(r.views[k].buckets, r.calls[k - 1].now)
  {
    assert StepAt(cfg, r, k - 1);
    SweepRemovesNothing(cfg, r, k - 1);
    StepKeeps(cfg, r.views[k - 1], r.calls[k - 1].key, r.calls[k - 1].now);
    if k > 1 {
      StampsInOrder(cfg, r, k - 1);
      Later(r.views[k - 1].buckets, r.calls, k - 2);
    }
  }

  lemma {:induction false} LevelsGrow(cfg: Config, r: Run, ip: Ip, i: nat)
    requires IsRun(cfg, r) && Chronological(r.calls) && 0 < i < |r.calls|
    ensures LevelAt(cfg, r, ip, i, r.calls[i].now)
         == Min(cfg.burst, LevelAt(cfg, r, ip, i, r.calls[i - 1].now)
                           + Earned(cfg.rps, r.calls[i - 1].now, r.calls[i].now))
  {
    StampsInOrder(cfg, r, i);
    LevelGrows(cfg.burst, cfg.rps, r.views[i].buckets, ip, r.calls[i - 1].now, r.calls[i].now);
  }

  lemma {:induction false} RunIsExact(cfg: Config, r: Run, ip: Ip)
      returns (before: seq<real>, after: seq<real>, reset: seq<bool>)
    requires IsRun(cfg, r) && Chronological(r.calls)
    ensures ExactlyMetered(cfg.burst, cfg.rps, r.calls, ip, before, after, reset)
    ensures before == Before(cfg, r, ip) && NoneSet(reset)
  {
    before, after, reset := Before(cfg, r, ip), Afterwards(cfg, r, ip), seq(|r.calls|, _ => false);
    forall i | 0 <= i < |r.calls|
      ensures after[i] == before[i] - if Admits(r.calls[i], ip) then 1.0 else 0.0
    {
      StepLevels(cfg, r, ip, i);
    }
    forall i | 0 < i < |r.calls|
      ensures before[i] == Min(cfg.burst, after[i - 1] + Earned(cfg.rps, r.calls[i - 1].now, r.calls[i].now))
    {
      LevelsGrow(cfg, r, ip, i);
    }
  }

  /** The exact answer: with readings in order a request is refused if and only if, since some
      earlier admission of its address, admissions left less than a token of the burst and all
      the refill since. */
  lemma {:induction false} RefusedIff(cfg: Config, r: Run, i: nat)
    requires IsRun(cfg, r) && Chronological(r.calls) && i < |r.calls|
    ensures var ip := r.calls[i].key;
      !r.calls[i].ok <==>
        exists j :: 0 <= j < i && Admits(r.calls[j], ip) && Spare(cfg.burst, cfg.rps, r.calls, ip, j, i) < 1.0
  {
    var ip := r.calls[i].key;
    var before, after, reset := RunIsExact(cfg, r, ip);
    BelowOneIff(cfg.burst, cfg.rps, r.calls, ip, before, after, reset, i);
    SpareAtStart(cfg.burst, cfg.rps, r.calls, ip, i);
    assert StepAt(cfg, r, i);
    if exists j :: 0 <= j < i && Admits(r.calls[j], ip) && Spare(cfg.burst, cfg.rps, r.calls, ip, j, i) < 1.0 {
      var j :| 0 <= j < i && Admits(r.calls[j], ip) && Spare(cfg.burst, cfg.rps, r.calls, ip, j, i) < 1.0;
      assert Since(r.calls, ip, reset, j, i);
    }
  }

  /** Three requests of one address whose clock readings are 1, 0 and 1. */
  function OutOfOrder(ip: Ip): Run {
    Run([View(map[], 0), View(map[ip := Bucket(0.0, 1.0)], 1),
         View(map[ip := Bucket(0.0, 0.0)], 2), View(map[ip := Bucket(0.0, 1.0)], 3)],
        [Call(ip, 1.0, true), Call(ip, 0.0, false), Call(ip, 1.0, true)])
  }

  lemma {:induction false} OnlyAddress(cfg: Config, v: View, ip: Ip, now: real)
    requires v.buckets.Keys <= {ip}
    ensures After(cfg, v, ip, now) ==
      View(map[ip := Spend(cfg.burst, cfg.rps, Entry(cfg, v.buckets, ip, now), now).0], v.checks + 1)
  {
    var b := Spend(cfg.burst, cfg.rps, Entry(cfg, v.buckets, ip, now), now).0;
    assert v.buckets[ip := b] == map[ip := b];
    assert |map[ip := b]| == 1;
  }

  const UNIT: Config := Config(1.0, 1.0)

  /** A request of the only address, with a burst and a rate of one. */
  lemma {:induction false} UnitStep(v: View, ip: Ip, now: real, tokens: real)
    requires v.buckets.Keys <= {ip}
    requires var b := Entry(UNIT, v.buckets, ip, now); tokens == Min(b.tokens + Elapsed(b.last, now), 1.0)
    ensures var left := if tokens >= 1.0 then tokens - 1.0 else tokens;
      After(UNIT, v, ip, now) == View(map[ip := Bucket(left, now)], v.checks + 1)
    ensures Spend(UNIT.burst, UNIT.rps, Entry(UNIT, v.buckets, ip, now), now).1 <==> tokens >= 1.0
  {
    var b := Entry(UNIT, v.buckets, ip, now);
    assert Elapsed(b.last, now) * 1.0 == Elapsed(b.last, now);
    OnlyAddress(UNIT, v, ip, now);
  }

  lemma {:induction false} OutOfOrderSteps(ip: Ip, i: nat)
    requires i < 3
    ensures StepAt(UNIT, OutOfOrder(ip), i)
  {
    var r := OutOfOrder(ip);
    UnitStep(r.views[i], ip, r.calls[i].now, if i == 1 then 0.0 else 1.0);
  }

  lemma {:induction false} OutOfOrderIsRun(ip: Ip)
    ensures IsRun(UNIT, OutOfOrder(ip))
  {
    forall i | 0 <= i < 3 ensures StepAt(UNIT, OutOfOrder(ip), i) {
      OutOfOrderSteps(ip, i);
    }
  }

  /** Out of order the rate bound fails: two admissions at one instant with a burst of one. */
  lemma {:induction false} OutOfOrderBreaksRate(ip: Ip)
    ensures var r := OutOfOrder(ip);
      IsRun(UNIT, r) && Admitted(r.calls, ip, 1.0, 1.0) as real > UNIT.burst + Earned(UNIT.rps, 1.0, 1.0)
  {
    OutOfOrderIsRun(ip);
    var a, b, c := Call(ip, 1.0, true), Call(ip, 0.0, false), Call(ip, 1.0, true);
    AdmittedSnoc([], a, ip, 1.0, 1.0);
    AdmittedSnoc([a], b, ip, 1.0, 1.0);
    AdmittedSnoc([a, b], c, ip, 1.0, 1.0);
    assert [] + [a] == [a] && [a] + [b] == [a, b] && [a, b] + [c] == [a, b, c];
  }
}
