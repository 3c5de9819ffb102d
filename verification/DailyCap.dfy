/** The persistent daily cap under overlapping requests: `notify` looks a row up, decides,
    sends, and only then records. */
module DailyCap {
  import opened Prelude
  import opened NotifyStore

  type Request = nat

  /** A request between its lookup and its end: the row it read, and once it decided to send
      the day it did so, which is the day it will record. */
  datatype Flight = Flight(handle: Handle, row: Row, stamp: Option<nat>)

  /** `minted` records the handles ever issued; `delivered` today's deliveries, `late` how
      often a record stamped with an earlier day took today's counter away, and `since` the
      deliveries of today after the last such record. */
  datatype State = State(
    cap: nat, day: nat, rows: Table, flights: map<Request, Flight>,
    minted: set<Handle>, delivered: map<Handle, nat>, since: map<Handle, nat>, late: map<Handle, nat>)

  datatype Step =
    | Register(platform: string, token: string, existing: Option<Handle>, handle: Handle, at: int)
    | Lookup(request: Request, h: Handle)              // a request reads its row
    | Decide(request: Request, limiter: bool)          // cap and limiter checks, then send or refuse
    | Delivered(request: Request, now: int)            // the provider took it: record
    | Unregistered(request: Request)                   // the provider forgot the device: prune
    | Upstream(request: Request)                       // the provider failed
    | Delete(h: Handle)
    | Midnight                                         // requests may straddle it

  /** The daily-cap check as the handler makes it. */
  predicate Passes(s: State, row: Row) {
    !row.pruned && !(row.day == Some(s.day) && row.sends >= s.cap)
  }

  predicate Enabled(s: State, step: Step) {
    match step
    case Register(_, _, _, h, _) => h !in s.minted
    case Lookup(q, h) => q !in s.flights && h in s.rows
    case Decide(q, _) => q in s.flights && s.flights[q].stamp.None?
    case Delivered(q, _) => q in s.flights && s.flights[q].stamp.Some?
    case Unregistered(q) => q in s.flights && s.flights[q].stamp.Some?
    case Upstream(q) => q in s.flights && s.flights[q].stamp.Some?
    case Delete(_) => true
    case Midnight => true
  }

  function At(m: map<Handle, nat>, h: Handle): nat {
    if h in m then m[h] else 0
  }

  /** Today's deliveries for `h`. */
  function Count(s: State, h: Handle): nat {
    At(s.delivered, h)
  }

  /** Recording `f` now takes today's counter away. */
  predicate Resets(s: State, f: Flight) {
    && f.stamp.Some? && f.stamp.value != s.day
    && f.handle in s.rows && s.rows[f.handle].day == Some(s.day)
  }

  function Record(s: State, f: Flight, now: int): State
    requires f.stamp.Some?
  {
    var h := f.handle;
    var t := s.(rows := Recorded(s.rows, h, f.stamp.value, now));
    if f.stamp.value == s.day then
      t.(delivered := s.delivered[h := Count(s, h) + 1], since := s.since[h := At(s.since, h) + 1])
    else if Resets(s, f) then
      t.(since := s.since[h := 0], late := s.late[h := At(s.late, h) + 1])
    else t
  }

  function Do(s: State, step: Step): State
    requires Enabled(s, step)
  {
    match step
    case Register(platform, token, existing, h, at) =>
      s.(rows := Registered(s.rows, platform, token, existing, h, at).0, minted := s.minted + {h})
    case Lookup(q, h) => s.(flights := s.flights[q := Flight(h, s.rows[h], None)])
    case Decide(q, limiter) =>
      var f := s.flights[q];
      if Passes(s, f.row) && limiter then s.(flights := s.flights[q := f.(stamp := Some(s.day))])
      else s.(flights := s.flights - {q})
    case Delivered(q, now) => Record(s, s.flights[q], now).(flights := s.flights - {q})
    case Unregistered(q) => s.(flights := s.flights - {q}, rows := Pruned(s.rows, s.flights[q].handle))
    case Upstream(q) => s.(flights := s.flights - {q})
    case Delete(h) => s.(rows := s.rows - {h})
    case Midnight => s.(day := s.day + 1, delivered := map[], since := map[], late := map[])
  }

  function Initial(cap: nat, day: nat): State {
    State(cap, day, map[], map[], {}, map[], map[], map[])
  }

  datatype Run = Run(states: seq<State>, steps: seq<Step>)

  ghost predicate StepAt(r: Run, i: nat)
    requires i < |r.steps| && |r.states| == |r.steps| + 1
  {
    Enabled(r.states[i], r.steps[i]) && r.states[i + 1] == Do(r.states[i], r.steps[i])
  }

  ghost predicate IsRun(r: Run) {
    && |r.states| == |r.steps| + 1
    && r.states[0] == Initial(r.states[0].cap, r.states[0].day)
    && forall i :: 0 <= i < |r.steps| ==> StepAt(r, i)
  }

  // ----- the counter counts ----------------------------------------------------------

  /** A live row's counter is today's deliveries, back to the last late record. */
  ghost predicate CounterOk(s: State, h: Handle) {
    h in s.rows ==>
      && At(s.since, h) == (if s.rows[h].day == Some(s.day) then s.rows[h].sends else 0)
      && (s.rows[h].day.Some? ==> s.rows[h].day.value <= s.day && s.rows[h].sends > 0)
  }

  /** Without a late record today, `since` is all of today. */
  ghost predicate SinceOk(s: State, h: Handle) {
    At(s.since, h) <= Count(s, h) && (At(s.late, h) == 0 ==> At(s.since, h) == Count(s, h))
  }

  ghost predicate FlightOk(s: State, q: Request) {
    q in s.flights ==>
      && s.flights[q].handle in s.minted
      && (s.flights[q].stamp.Some? ==> s.flights[q].stamp.value <= s.day)
  }

  ghost predicate Inv(s: State) {
    && (forall h :: CounterOk(s, h))
    && (forall h :: SinceOk(s, h))
    && (forall q :: FlightOk(s, q))
    && s.rows.Keys <= s.minted && s.since.Keys <= s.minted
  }

  /** A record moves only the counters of its own handle. */
  lemma {:induction false} RecordElsewhere(s: State, f: Flight, now: int, h: Handle)
    requires f.stamp.Some? && f.handle != h
    ensures var t := Record(s, f, now);
      && Get(t.rows, h) == Get(s.rows, h) && Count(t, h) == Count(s, h)
      && At(t.since, h) == At(s.since, h) && At(t.late, h) == At(s.late, h)
  {}

  lemma {:induction false} RecordCounts(s: State, f: Flight, now: int)
    requires f.stamp.Some? && f.stamp.value <= s.day && CounterOk(s, f.handle) && SinceOk(s, f.handle)
    ensures CounterOk(Record(s, f, now), f.handle) && SinceOk(Record(s, f, now), f.handle)
  {}

  lemma {:induction false} KeepRecord(s: State, f: Flight, now: int)
    requires Inv(s) && f.stamp.Some? && f.stamp.value <= s.day && f.handle in s.minted
    ensures Inv(Record(s, f, now))
  {
    var t := Record(s, f, now);
    forall h ensures CounterOk(t, h) && SinceOk(t, h) {
      assert CounterOk(s, h) && SinceOk(s, h);
      if h == f.handle { RecordCounts(s, f, now); } else { RecordElsewhere(s, f, now, h); }
    }
    forall q ensures FlightOk(t, q) {
      assert FlightOk(s, q);
    }
  }

  lemma {:induction false} KeepEnd(s: State, q: Request)
    requires Inv(s)
    ensures Inv(s.(flights := s.flights - {q}))
  {
    var t := s.(flights := s.flights - {q});
    forall h ensures CounterOk(t, h) && SinceOk(t, h) {
      assert CounterOk(s, h) && SinceOk(s, h);
    }
    forall p ensures FlightOk(t, p) {
      assert FlightOk(s, p);
    }
  }

  lemma {:induction false} KeepRows(s: State, t: State)
    requires Inv(s) && t == s.(rows := t.rows, minted := t.minted) && t.rows.Keys <= t.minted && s.minted <= t.minted
    // a row keeps its day and counter, or is new and of a handle never issued
    requires forall h :: h in t.rows ==>
      if h in s.rows then t.rows[h].day == s.rows[h].day && t.rows[h].sends == s.rows[h].sends
      else t.rows[h].day.None? && h !in s.minted
    ensures Inv(t)
  {
    forall h ensures CounterOk(t, h) && SinceOk(t, h) {
      assert CounterOk(s, h) && SinceOk(s, h);
    }
    forall p ensures FlightOk(t, p) {
      assert FlightOk(s, p);
    }
  }

  lemma {:induction false} KeepOthers(s: State, step: Step)
    requires Inv(s) && Enabled(s, step) && (step.Lookup? || step.Decide?)
    ensures Inv(Do(s, step))
  {
    var t := Do(s, step);
    forall h ensures CounterOk(t, h) && SinceOk(t, h) {
      assert CounterOk(s, h) && SinceOk(s, h);
    }
    forall p ensures FlightOk(t, p) {
      assert FlightOk(s, p) && FlightOk(s, step.request);
    }
  }

  lemma {:induction false} KeepMidnight(s: State)
    requires Inv(s)
    ensures Inv(Do(s, Midnight))
  {
    var t := Do(s, Midnight);
    forall h ensures CounterOk(t, h) {
      assert CounterOk(s, h);
    }
    forall p ensures FlightOk(t, p) {
      assert FlightOk(s, p);
    }
  }

  lemma {:induction false} KeepInv(s: State, step: Step)
    requires Inv(s) && Enabled(s, step)
    ensures Inv(Do(s, step))
  {
    match step {
      case Register(_, _, _, _, _) => KeepRows(s, Do(s, step));
      case Delete(_) => KeepRows(s, Do(s, step));
      case Unregistered(q) =>
        KeepEnd(s, q);
        KeepRows(s.(flights := s.flights - {q}), Do(s, step));
      case Upstream(q) => KeepEnd(s, q);
      case Delivered(q, now) =>
        assert FlightOk(s, q);
        KeepRecord(s, s.flights[q], now);
        KeepEnd(Record(s, s.flights[q], now), q);
      case Midnight => KeepMidnight(s);
      case _ => KeepOthers(s, step);
    }
  }

  lemma {:induction false} InvAlways(r: Run, k: nat)
    requires IsRun(r) && k < |r.states|
    ensures Inv(r.states[k]) && r.states[k].cap == r.states[0].cap
  {
    if k > 0 {
      InvAlways(r, k - 1);
      assert StepAt(r, k - 1);
      KeepInv(r.states[k - 1], r.steps[k - 1]);
    }
  }

  // ----- the cap under overlap -------------------------------------------------------

  /** Requests for `h` between lookup and record. */
  ghost function Overlap(s: State, h: Handle): set<Request> {
    set q | q in s.flights && s.flights[q].handle == h
  }

  /** Those that send for today, or will pass the cap check if they decide today. */
  ghost function Bound(s: State, h: Handle): set<Request> {
    set q | q in Overlap(s, h) &&
      (s.flights[q].stamp == Some(s.day) || (s.flights[q].stamp.None? && Passes(s, s.flights[q].row)))
  }

  ghost function Sending(s: State, h: Handle): set<Request> {
    set q | q in Overlap(s, h) && s.flights[q].stamp == Some(s.day)
  }

  /** The check admits the first request of a day even when the cap is zero. */
  function Ceiling(cap: nat): nat {
    if cap == 0 then 1 else cap
  }

  /** What one stretch without a late record can take. */
  function Quota(cap: nat, k: nat): nat
    requires k >= 1
  {
    Ceiling(cap) + k - 1
  }

  lemma {:induction false} LookupBound(s: State, q: Request, g: Handle, h: Handle, k: nat)
    requires Inv(s) && Enabled(s, Lookup(q, g)) && |Overlap(Do(s, Lookup(q, g)), h)| <= k && k >= 1
    requires At(s.since, h) + |Bound(s, h)| <= Quota(s.cap, k)
    ensures At(s.since, h) + |Bound(Do(s, Lookup(q, g)), h)| <= Quota(s.cap, k)
  {
    var t := Do(s, Lookup(q, g));
    if g == h && Passes(s, s.rows[h]) {
      assert CounterOk(s, h);
      SubsetSize(Bound(t, h), Overlap(t, h));
    } else {
      assert Bound(t, h) == Bound(s, h);
    }
  }

  /** A request that ends leaves the bound ones. */
  lemma {:induction false} EndBound(s: State, q: Request, t: State, h: Handle)
    requires t.flights == s.flights - {q} && t.day == s.day && t.cap == s.cap
    ensures Bound(t, h) == Bound(s, h) - {q}
  {}

  lemma {:induction false} RecordSince(s: State, f: Flight, now: int, h: Handle)
    requires f.stamp.Some?
    ensures var t := Record(s, f, now);
      && t.day == s.day && t.cap == s.cap
      && At(t.since, h) <= At(s.since, h) + if f.handle == h && f.stamp.value == s.day then 1 else 0
  {}

  lemma {:induction false} RecordBound(s: State, q: Request, now: int, h: Handle)
    requires Enabled(s, Delivered(q, now))
    ensures var t := Do(s, Delivered(q, now));
      At(t.since, h) + |Bound(t, h)| <= At(s.since, h) + |Bound(s, h)|
  {
    var f := s.flights[q];
    RecordSince(s, f, now, h);
    EndBound(s, q, Do(s, Delivered(q, now)), h);
    assert f.handle == h && f.stamp == Some(s.day) ==> q in Bound(s, h);
  }

  /** Only a lookup that passes, and midnight, add to the requests bound to be sent. */
  lemma {:induction false} StepBound(s: State, step: Step, h: Handle, k: nat)
    requires Inv(s) && Enabled(s, step) && |Overlap(Do(s, step), h)| <= k && k >= 1
    requires At(s.since, h) + |Bound(s, h)| <= Quota(s.cap, k)
    ensures var t := Do(s, step); At(t.since, h) + |Bound(t, h)| <= Quota(s.cap, k)
  {
    var t := Do(s, step);
    match step {
      case Lookup(q, g) => LookupBound(s, q, g, h, k);
      case Delivered(q, now) => RecordBound(s, q, now, h);
      case Midnight => SubsetSize(Bound(t, h), Overlap(t, h));
      case _ =>
        assert Bound(t, h) <= Bound(s, h);
        SubsetSize(Bound(t, h), Bound(s, h));
    }
  }

  ghost predicate OverlapAtMost(r: Run, h: Handle, k: nat)
    requires IsRun(r)
  {
    forall i :: 0 <= i < |r.states| ==> |Overlap(r.states[i], h)| <= k
  }

  function Times(n: nat, m: nat): nat {
    if n == 0 then 0 else Times(n - 1, m) + m
  }

  lemma {:induction false} TimesIs(n: nat, m: nat)
    ensures Times(n, m) == n * m
  {
    if n > 0 { TimesIs(n - 1, m); }
  }

  /** Every late record writes off at most one quota. */
  ghost predicate WrittenOff(s: State, h: Handle, quota: nat) {
    Count(s, h) <= Times(At(s.late, h), quota) + At(s.since, h)
  }

  lemma {:induction false} RecordWritesOff(s: State, f: Flight, now: int, h: Handle, quota: nat)
    requires f.stamp.Some? && At(s.since, h) <= quota && WrittenOff(s, h, quota)
    ensures WrittenOff(Record(s, f, now), h, quota)
  {
    if f.handle != h { RecordElsewhere(s, f, now, h); }
  }

  lemma {:induction false} StepWritesOff(s: State, step: Step, h: Handle, quota: nat)
    requires Enabled(s, step) && At(s.since, h) <= quota && WrittenOff(s, h, quota)
    ensures WrittenOff(Do(s, step), h, quota)
  {
    if step.Delivered? { RecordWritesOff(s, s.flights[step.request], step.now, h, quota); }
  }

  lemma {:induction false} BoundAlways(r: Run, h: Handle, k: nat, i: nat)
    requires IsRun(r) && OverlapAtMost(r, h, k) && k >= 1 && i < |r.states|
    ensures At(r.states[i].since, h) + |Bound(r.states[i], h)| <= Quota(r.states[0].cap, k)
    ensures WrittenOff(r.states[i], h, Quota(r.states[0].cap, k))
  {
    if i == 0 {
      assert Bound(r.states[0], h) == {};
    } else {
      BoundAlways(r, h, k, i - 1);
      InvAlways(r, i - 1);
      assert StepAt(r, i - 1);
      StepBound(r.states[i - 1], r.steps[i - 1], h, k);
      StepWritesOff(r.states[i - 1], r.steps[i - 1], h, Quota(r.states[0].cap, k));
    }
  }

  /** Daily cap: with at most `k` overlapping requests for a handle, today's deliveries and
      the sends in flight never exceed `cap + k - 1` (for a positive cap), and as much again
      for every late record that took today's counter away. */
  lemma {:induction false} CapUnderOverlap(r: Run, h: Handle, k: nat, i: nat)
    requires IsRun(r) && OverlapAtMost(r, h, k) && k >= 1 && i < |r.states|
    ensures var s := r.states[i];
      Count(s, h) + |Sending(s, h)| <= (At(s.late, h) + 1) * (Ceiling(r.states[0].cap) + k - 1)
  {
    var s, quota := r.states[i], Quota(r.states[0].cap, k);
    BoundAlways(r, h, k, i);
    assert Sending(s, h) <= Bound(s, h);
    SubsetSize(Sending(s, h), Bound(s, h));
    TimesIs(At(s.late, h) + 1, quota);
  }

  // ----- one request at a time -------------------------------------------------------

  /** A request that straddled midnight was alone, so nothing is recorded today. */
  ghost predicate Alone(s: State, h: Handle) {
    && At(s.late, h) == 0
    && forall q :: Straddles(s, h, q) ==> At(s.since, h) == 0
  }

  lemma {:induction false} Singleton<T>(s: set<T>, x: T, y: T)
    requires |s| <= 1 && x in s && y in s
    ensures x == y
  {
    SubsetSize({x, y}, s);
  }

  ghost predicate Straddles(s: State, h: Handle, q: Request) {
    q in s.flights && s.flights[q].handle == h && s.flights[q].stamp.Some? && s.flights[q].stamp != Some(s.day)
  }

  lemma {:induction false} RecordAlone(s: State, q: Request, now: int, h: Handle)
    requires Inv(s) && Enabled(s, Delivered(q, now)) && |Overlap(s, h)| <= 1 && Alone(s, h)
    ensures Alone(Do(s, Delivered(q, now)), h)
  {
    var t := Do(s, Delivered(q, now));
    if s.flights[q].handle == h {
      assert q in Overlap(s, h) && CounterOk(s, h) && (Straddles(s, h, q) ==> At(s.since, h) == 0);
      forall p ensures !Straddles(t, h, p) {
        if Straddles(t, h, p) { Singleton(Overlap(s, h), p, q); }
      }
    } else {
      forall p | Straddles(t, h, p) ensures Straddles(s, h, p) {}
    }
  }

  lemma {:induction false} StepAlone(s: State, step: Step, h: Handle)
    requires Inv(s) && Enabled(s, step) && |Overlap(s, h)| <= 1 && Alone(s, h)
    ensures Alone(Do(s, step), h)
  {
    if step.Delivered? {
      RecordAlone(s, step.request, step.now, h);
    } else {
      forall p | Straddles(Do(s, step), h, p) && !step.Midnight? ensures Straddles(s, h, p) {}
    }
  }

  lemma {:induction false} AloneAlways(r: Run, h: Handle, i: nat)
    requires IsRun(r) && OverlapAtMost(r, h, 1) && i < |r.states|
    ensures Alone(r.states[i], h)
  {
    if i > 0 {
      AloneAlways(r, h, i - 1);
      InvAlways(r, i - 1);
      assert StepAt(r, i - 1);
      StepAlone(r.states[i - 1], r.steps[i - 1], h);
    }
  }

  // ----- a pruned device stays pruned ------------------------------------------------

  /** Step `k` refreshes `h` with a new device token. */
  ghost predicate Refreshes(r: Run, k: nat, h: Handle)
    requires IsRun(r) && k < |r.steps|
  {
    r.steps[k].Register? && r.steps[k].existing == Some(h)
  }

  /** Once the provider reported a device gone, no request that looks its handle up passes
      until the handle is registered again. */
  lemma {:induction false} PruneHolds(r: Run, i: nat, j: nat, h: Handle)
    requires IsRun(r) && i < j < |r.states|
    requires r.steps[i].Unregistered? && r.steps[i].request in r.states[i].flights
    requires r.states[i].flights[r.steps[i].request].handle == h
    requires forall k :: i < k < j ==> !Refreshes(r, k, h)
    ensures h in r.states[j].rows ==> r.states[j].rows[h].pruned && !Passes(r.states[j], r.states[j].rows[h])
    ensures h in r.states[j].minted
  {
    assert StepAt(r, i);
    InvAlways(r, i);
    assert FlightOk(r.states[i], r.steps[i].request);
    if j > i + 1 {
      PruneHolds(r, i, j - 1, h);
      assert StepAt(r, j - 1) && !Refreshes(r, j - 1, h);
      StaysGone(r.states[j - 1], r.steps[j - 1], h);
    }
  }

  /** A delivery's rows are the recorded ones. */
  lemma {:induction false} DeliveredRows(s: State, q: Request, now: int)
    requires Enabled(s, Delivered(q, now))
    ensures var f := s.flights[q];
      Do(s, Delivered(q, now)).rows == Recorded(s.rows, f.handle, f.stamp.value, now)
  {}

  /** `h` was issued and no live row of it is left. */
  ghost predicate Gone(s: State, h: Handle) {
    h in s.minted && (h in s.rows ==> s.rows[h].pruned)
  }

  lemma {:induction false} StaysGone(s: State, step: Step, h: Handle)
    requires Enabled(s, step) && Gone(s, h) && !(step.Register? && step.existing == Some(h))
    ensures Gone(Do(s, step), h)
  {
    match step {
      case Register(platform, token, existing, g, at) =>
        var after := Registered(s.rows, platform, token, existing, g, at);
        assert h in after.0 ==> h in s.rows && after.0[h] == s.rows[h];
      case Delivered(q, now) =>
        DeliveredRows(s, q, now);
      case _ =>
    }
  }

  // ----- what moves a row ------------------------------------------------------------

  /** The handle a request in flight is for. */
  predicate For(s: State, q: Request, h: Handle) {
    q in s.flights && s.flights[q].handle == h
  }

  predicate Registers(s: State, step: Step, h: Handle) {
    step.Register? && (step.existing == Some(h) || (step.handle == h && h !in s.rows))
  }

  /** A row moves only by a registration that returns its handle, a delivery or a prune of a
      request for it, or its deletion; looking it up, deciding, a failing provider and midnight
      leave every row. */
  lemma {:induction false} RowMoves(s: State, step: Step, h: Handle)
    requires Enabled(s, step)
    ensures var t := Do(s, step);
      || Get(t.rows, h) == Get(s.rows, h)
      || Registers(s, step, h)
      || (step.Delivered? && For(s, step.request, h))
      || (step.Unregistered? && For(s, step.request, h))
      || step == Delete(h)
    // rows come by registration and go by deletion, and by nothing else
    ensures h in s.rows && h !in Do(s, step).rows ==> step == Delete(h)
    ensures h in Do(s, step).rows && h !in s.rows ==> Registers(s, step, h)
    ensures step.Lookup? || step.Decide? || step.Upstream? || step.Midnight? ==> Do(s, step).rows == s.rows
  {
    if step.Delivered? { DeliveredRows(s, step.request, step.now); }
  }

  /** What a registration does to a row. */
  lemma {:induction false} RegisterMoves(s: State, step: Step, h: Handle)
    requires step.Register? && Enabled(s, step) && h in Do(s, step).rows
    ensures var row := Do(s, step).rows[h];
      if Registers(s, step, h) then !row.pruned && row.token == step.token && row.platform == step.platform
      else h in s.rows && row == s.rows[h]
  {}

  /** What recording a delivery does to a row. */
  lemma {:induction false} DeliveryMoves(s: State, step: Step, h: Handle)
    requires step.Delivered? && Enabled(s, step) && h in Do(s, step).rows
    ensures var row := Do(s, step).rows[h];
      h in s.rows && row.pruned == s.rows[h].pruned
      && row.token == s.rows[h].token && row.platform == s.rows[h].platform
  {
    DeliveredRows(s, step.request, step.now);
  }

  lemma {:induction false} PruneMoves(s: State, step: Step, h: Handle)
    requires Enabled(s, step) && h in Do(s, step).rows && Do(s, step).rows[h].pruned
    ensures (h in s.rows && s.rows[h].pruned && !Registers(s, step, h))
         || (step.Unregistered? && For(s, step.request, h))
  {
    match step {
      case Register(_, _, _, _, _) => RegisterMoves(s, step, h);
      case Delivered(_, _) => DeliveryMoves(s, step, h);
      case _ =>
    }
  }

  /** Step `i` is the provider's word that the device is gone. */
  ghost predicate Forgets(r: Run, i: nat, h: Handle)
    requires IsRun(r)
  {
    i < |r.steps| && r.steps[i].Unregistered? && For(r.states[i], r.steps[i].request, h)
  }

  /** It came before state `j`, and the handle was not registered again since. */
  ghost predicate ForgottenSince(r: Run, i: nat, j: nat, h: Handle)
    requires IsRun(r)
  {
    i < j <= |r.steps| && Forgets(r, i, h) && forall k :: i < k < j ==> !Refreshes(r, k, h)
  }

  lemma {:induction false} PrunedSince(r: Run, j: nat, h: Handle) returns (i: nat)
    requires IsRun(r) && j < |r.states| && h in r.states[j].rows && r.states[j].rows[h].pruned
    ensures ForgottenSince(r, i, j, h)
  {
    assert StepAt(r, j - 1);
    PruneMoves(r.states[j - 1], r.steps[j - 1], h);
    if Forgets(r, j - 1, h) {
      i := j - 1;
    } else {
      i := PrunedSince(r, j - 1, h);
    }
  }

  /** A live registration is pruned if and only if the provider reported its device gone and
      it was not registered again since. */
  lemma {:induction false} PrunedIff(r: Run, j: nat, h: Handle)
    requires IsRun(r) && j < |r.states| && h in r.states[j].rows
    ensures r.states[j].rows[h].pruned <==> exists i :: ForgottenSince(r, i, j, h)
  {
    if r.states[j].rows[h].pruned {
      var i := PrunedSince(r, j, h);
    }
    if exists i :: ForgottenSince(r, i, j, h) {
      var i :| ForgottenSince(r, i, j, h);
      PruneHolds(r, i, j, h);
    }
  }

  /** Step `i` registered `h` with this device, and nothing before state `j` did so again. */
  ghost predicate RegisteredSince(r: Run, i: nat, j: nat, h: Handle, row: Row)
    requires IsRun(r)
  {
    && i < j <= |r.steps| && Registers(r.states[i], r.steps[i], h)
    && r.steps[i].token == row.token && r.steps[i].platform == row.platform
    && forall k :: i < k < j ==> !Registers(r.states[k], r.steps[k], h)
  }

  lemma {:induction false} DeviceMoves(s: State, step: Step, h: Handle)
    requires Enabled(s, step) && h in Do(s, step).rows
    ensures var row := Do(s, step).rows[h];
      if Registers(s, step, h) then row.token == step.token && row.platform == step.platform
      else h in s.rows && row.token == s.rows[h].token && row.platform == s.rows[h].platform
  {
    match step {
      case Register(_, _, _, _, _) => RegisterMoves(s, step, h);
      case Delivered(_, _) => DeliveryMoves(s, step, h);
      case _ =>
    }
  }

  /** A row sends to the device of the last registration of its handle, whatever was sent,
      refused or pruned since. */
  lemma {:induction false} SendsToLastRegistered(r: Run, j: nat, h: Handle) returns (i: nat)
    requires IsRun(r) && j < |r.states| && h in r.states[j].rows
    ensures RegisteredSince(r, i, j, h, r.states[j].rows[h])
  {
    assert StepAt(r, j - 1);
    DeviceMoves(r.states[j - 1], r.steps[j - 1], h);
    if Registers(r.states[j - 1], r.steps[j - 1], h) {
      i := j - 1;
    } else {
      i := SendsToLastRegistered(r, j - 1, h);
    }
  }

  // ----- who is let through ----------------------------------------------------------

  /** A request that decides on the row as it stands is let through if and only if the device
      was not reported gone, the limiter agrees, and today's counter is below the ceiling. */
  lemma {:induction false} LetThroughIff(s: State, q: Request, h: Handle, limiter: bool)
    requires Inv(s) && Enabled(s, Lookup(q, h))
    ensures var t := Do(Do(s, Lookup(q, h)), Decide(q, limiter));
      && (q in t.flights <==> !s.rows[h].pruned && limiter && At(s.since, h) < Ceiling(s.cap))
      && (q in t.flights ==> t.flights[q] == Flight(h, s.rows[h], Some(s.day)))
      && t.rows == s.rows
  {
    assert CounterOk(s, h);
  }

  // ----- the bound is reached --------------------------------------------------------

  /** Some run with at most `k` overlapping requests for `h` ends in `s`. */
  ghost predicate Reaches(cap: nat, h: Handle, k: nat, s: State) {
    exists r :: Ends(r, cap, h, k, s)
  }

  ghost predicate Ends(r: Run, cap: nat, h: Handle, k: nat, s: State) {
    IsRun(r) && OverlapAtMost(r, h, k) && r.states[0].cap == cap && Last(r.states) == s
  }

  lemma {:induction false} Grow(cap: nat, h: Handle, k: nat, s: State, step: Step, t: State)
    requires Reaches(cap, h, k, s) && Enabled(s, step) && t == Do(s, step) && |Overlap(t, h)| <= k
    ensures Reaches(cap, h, k, t)
  {
    var r :| Ends(r, cap, h, k, s);
    var longer := Run(r.states + [t], r.steps + [step]);
    forall i | 0 <= i < |longer.steps| ensures StepAt(longer, i) {
      if i < |r.steps| { assert StepAt(r, i); }
    }
    assert Ends(longer, cap, h, k, t);
  }

  lemma {:induction false} LookingUp(cap: nat, h: Handle, k: nat, s: State, q: Request, t: State)
    requires Reaches(cap, h, k, s) && h in s.rows && q !in s.flights
    requires t == s.(flights := s.flights[q := Flight(h, s.rows[h], None)]) && |Overlap(t, h)| <= k
    ensures Reaches(cap, h, k, t)
  {
    Grow(cap, h, k, s, Lookup(q, h), t);
  }

  lemma {:induction false} Deciding(cap: nat, h: Handle, k: nat, s: State, q: Request, t: State)
    requires Reaches(cap, h, k, s) && q in s.flights && s.flights[q].stamp.None? && Passes(s, s.flights[q].row)
    requires t == s.(flights := s.flights[q := s.flights[q].(stamp := Some(s.day))]) && |Overlap(t, h)| <= k
    ensures Reaches(cap, h, k, t)
  {
    Grow(cap, h, k, s, Decide(q, true), t);
  }

  lemma {:induction false} Recording(cap: nat, h: Handle, k: nat, s: State, q: Request, t: State)
    requires Reaches(cap, h, k, s) && q in s.flights && s.flights[q].stamp.Some?
    requires t == Record(s, s.flights[q], 0).(flights := s.flights - {q}) && |Overlap(t, h)| <= k
    ensures Reaches(cap, h, k, t)
  {
    Grow(cap, h, k, s, Delivered(q, 0), t);
  }

  lemma {:induction false} ReachesInv(cap: nat, h: Handle, k: nat, s: State)
    requires Reaches(cap, h, k, s)
    ensures Inv(s) && s.cap == cap
  {
    var r :| Ends(r, cap, h, k, s);
    InvAlways(r, |r.states| - 1);
  }

  /** `h` is registered and idle, and its counter of today stands at `n`, below the cap. */
  ghost predicate Idle(s: State, h: Handle, n: nat) {
    s.flights == map[] && h in s.rows && !s.rows[h].pruned && At(s.since, h) == n < Ceiling(s.cap)
  }

  lemma {:induction false} IdlePasses(s: State, h: Handle, n: nat)
    requires Inv(s) && Idle(s, h, n)
    ensures Passes(s, s.rows[h])
  {
    assert CounterOk(s, h);
  }

  lemma {:induction false} Registering(cap: nat, h: Handle, k: nat) returns (s: State)
    ensures Reaches(cap, h, k, s) && Idle(s, h, 0) && s.late == map[] && Count(s, h) == 0
  {
    var s0 := Initial(cap, 0);
    var step := Register("android", "token", None, h, 0);
    assert IsRun(Run([s0], [])) && Last([s0]) == s0;
    assert Overlap(s0, h) == {} && Overlap(Do(s0, step), h) == {};
    assert Ends(Run([s0], []), cap, h, k, s0);
    s := Do(s0, step);
    Grow(cap, h, k, s0, step, s);
  }

  /** A request looks an idle handle up and decides to send. */
  lemma {:induction false} SetOut(cap: nat, h: Handle, k: nat, s: State, n: nat) returns (t: State)
    requires Reaches(cap, h, k, s) && k >= 1 && Idle(s, h, n)
    ensures Reaches(cap, h, k, t) && t == s.(flights := map[0 := Flight(h, s.rows[h], Some(s.day))])
  {
    ReachesInv(cap, h, k, s);
    IdlePasses(s, h, n);
    var u := s.(flights := map[0 := Flight(h, s.rows[h], None)]);
    assert Overlap(u, h) == {0};
    LookingUp(cap, h, k, s, 0, u);
    t := s.(flights := map[0 := Flight(h, s.rows[h], Some(s.day))]);
    assert Overlap(t, h) == {0};
    Deciding(cap, h, k, u, 0, t);
  }

  lemma {:induction false} SendOne(cap: nat, h: Handle, k: nat, s: State, n: nat) returns (t: State)
    requires Reaches(cap, h, k, s) && k >= 1 && Idle(s, h, n)
    ensures Reaches(cap, h, k, t) && t.late == s.late && t.day == s.day && Count(t, h) == Count(s, h) + 1
    ensures t.flights == map[] && h in t.rows && !t.rows[h].pruned && At(t.since, h) == n + 1
  {
    var u := SetOut(cap, h, k, s, n);
    t := Record(u, u.flights[0], 0).(flights := map[]);
    assert Overlap(t, h) == {};
    Recording(cap, h, k, u, 0, t);
    ReachesInv(cap, h, k, t);
  }

  lemma {:induction false} SendOneByOne(cap: nat, h: Handle, k: nat, s: State, n: nat) returns (t: State)
    requires Reaches(cap, h, k, s) && k >= 1 && Idle(s, h, 0) && n < Ceiling(cap)
    ensures Reaches(cap, h, k, t) && Idle(t, h, n) && t.late == s.late && Count(t, h) == Count(s, h) + n
  {
    ReachesInv(cap, h, k, s);
    t := s;
    if n > 0 {
      var u := SendOneByOne(cap, h, k, s, n - 1);
      t := SendOne(cap, h, k, u, n - 1);
      ReachesInv(cap, h, k, t);
    }
  }

  function First(n: nat): (r: set<Request>)
    ensures |r| == n && forall q: nat :: q in r <==> q < n
  {
    if n == 0 then {} else First(n - 1) + {n - 1}
  }

  /** `j` requests have looked the same row up, the first `m` of them went on to send. */
  function Abreast(s: State, h: Handle, j: nat, m: nat): State
    requires h in s.rows
  {
    s.(flights := Fleet(s.day, h, s.rows[h], j, m))
  }

  function Fleet(day: nat, h: Handle, row: Row, j: nat, m: nat): map<Request, Flight> {
    map q | q in First(j) :: Flight(h, row, if q < m then Some(day) else None)
  }

  lemma {:induction false} FleetJoins(day: nat, h: Handle, row: Row, j: nat)
    ensures j !in Fleet(day, h, row, j, 0)
    ensures Fleet(day, h, row, j, 0)[j := Flight(h, row, None)] == Fleet(day, h, row, j + 1, 0)
  {}

  lemma {:induction false} FleetSends(day: nat, h: Handle, row: Row, j: nat, m: nat)
    requires m < j
    ensures m in Fleet(day, h, row, j, m) && Fleet(day, h, row, j, m)[m] == Flight(h, row, None)
    ensures Fleet(day, h, row, j, m)[m := Flight(h, row, Some(day))] == Fleet(day, h, row, j, m + 1)
  {}

  lemma {:induction false} AbreastSize(s: State, h: Handle, j: nat, m: nat)
    requires h in s.rows && m <= j
    ensures |Overlap(Abreast(s, h, j, m), h)| == j
    ensures |Sending(Abreast(s, h, j, m), h)| == m
  {
    var t := Abreast(s, h, j, m);
    assert Overlap(t, h) == First(j);
    assert Sending(t, h) == First(m);
  }

  lemma {:induction false} JoinAbreast(cap: nat, h: Handle, k: nat, s: State, j: nat, u: State, t: State)
    requires s.flights == map[] && h in s.rows && j < k
    requires u == Abreast(s, h, j, 0) && t == Abreast(s, h, j + 1, 0) && Reaches(cap, h, k, u)
    ensures Reaches(cap, h, k, t)
  {
    AbreastSize(s, h, j + 1, 0);
    FleetJoins(s.day, h, s.rows[h], j);
    LookingUp(cap, h, k, u, j, t);
  }

  lemma {:induction false} SendAbreast(cap: nat, h: Handle, k: nat, s: State, m: nat, u: State, t: State)
    requires h in s.rows && Passes(s, s.rows[h]) && m < k
    requires u == Abreast(s, h, k, m) && t == Abreast(s, h, k, m + 1) && Reaches(cap, h, k, u)
    ensures Reaches(cap, h, k, t)
  {
    AbreastSize(s, h, k, m + 1);
    FleetSends(s.day, h, s.rows[h], k, m);
    Deciding(cap, h, k, u, m, t);
  }

  lemma {:induction false} AllLookUp(cap: nat, h: Handle, k: nat, s: State, j: nat) returns (t: State)
    requires Reaches(cap, h, k, s) && s.flights == map[] && h in s.rows && j <= k
    ensures t == Abreast(s, h, j, 0) && Reaches(cap, h, k, t)
  {
    t := Abreast(s, h, j, 0);
    if j == 0 {
      assert t.flights == s.flights;
    } else {
      var u := AllLookUp(cap, h, k, s, j - 1);
      JoinAbreast(cap, h, k, s, j - 1, u, t);
    }
  }

  lemma {:induction false} AllSend(cap: nat, h: Handle, k: nat, s: State, m: nat) returns (t: State)
    requires h in s.rows && Passes(s, s.rows[h]) && m <= k
    requires Reaches(cap, h, k, Abreast(s, h, k, 0))
    ensures t == Abreast(s, h, k, m) && Reaches(cap, h, k, t)
  {
    t := Abreast(s, h, k, m);
    if m > 0 {
      var u := AllSend(cap, h, k, s, m - 1);
      SendAbreast(cap, h, k, s, m - 1, u, t);
    }
  }

  /** From an idle handle the rest of the quota can be spent, the last `k` sends at once. */
  lemma {:induction false} SpendQuota(cap: nat, h: Handle, k: nat, s: State) returns (t: State)
    requires Reaches(cap, h, k, s) && k >= 1 && Idle(s, h, 0)
    ensures Reaches(cap, h, k, t) && t.late == s.late
    ensures Count(t, h) + |Sending(t, h)| == Count(s, h) + Ceiling(cap) + k - 1
  {
    var u := SendOneByOne(cap, h, k, s, Ceiling(cap) - 1);
    ReachesInv(cap, h, k, u);
    IdlePasses(u, h, Ceiling(cap) - 1);
    t := AllLookUp(cap, h, k, u, k);
    t := AllSend(cap, h, k, u, k);
    AbreastSize(u, h, k, k);
  }

  /** The bound is exact: for every cap and every `k` some run without a late record reaches it. */
  lemma {:induction false} BoundIsReached(cap: nat, h: Handle, k: nat) returns (s: State)
    requires k >= 1
    ensures Reaches(cap, h, k, s) && At(s.late, h) == 0
    ensures Count(s, h) + |Sending(s, h)| == Ceiling(cap) + k - 1
  {
    s := Registering(cap, h, k);
    s := SpendQuota(cap, h, k, s);
  }

  /** A send of the day before is out, and its handle had none recorded today. */
  ghost predicate Straggling(s: State, h: Handle) {
    && h in s.rows && !s.rows[h].pruned && s.rows[h].day != Some(s.day) && Count(s, h) == 0
    && s.day > 0 && s.flights == map[0 := Flight(h, s.rows[h], Some(s.day - 1))]
  }

  lemma {:induction false} Straggle(cap: nat, h: Handle, k: nat) returns (s: State)
    requires k >= 1
    ensures Reaches(cap, h, k, s) && Straggling(s, h)
  {
    var s0 := Registering(cap, h, k);
    ReachesInv(cap, h, k, s0);
    assert CounterOk(s0, h);
    var s1 := SetOut(cap, h, k, s0, 0);
    s := Do(s1, Midnight);
    assert Overlap(s, h) == {0};
    Grow(cap, h, k, s1, Midnight, s);
  }

  lemma {:induction false} OvertakeStraggler(cap: nat, h: Handle, k: nat, s: State) returns (t: State)
    requires Reaches(cap, h, k, s) && k >= 2 && Straggling(s, h)
    ensures Reaches(cap, h, k, t) && t.day == s.day && t.flights == s.flights
    ensures h in t.rows && !t.rows[h].pruned && t.rows[h].day == Some(t.day) && Count(t, h) == 1
  {
    var f := Flight(h, s.rows[h], Some(s.day));
    var u := SecondSetsOut(cap, h, k, s);
    t := Record(u, f, 0).(flights := s.flights);
    assert u.flights - {1} == s.flights;
    assert Overlap(t, h) == {0};
    Recording(cap, h, k, u, 1, t);
  }

  lemma {:induction false} SecondSetsOut(cap: nat, h: Handle, k: nat, s: State) returns (t: State)
    requires Reaches(cap, h, k, s) && k >= 2 && Straggling(s, h)
    ensures Reaches(cap, h, k, t) && t == s.(flights := s.flights[1 := Flight(h, s.rows[h], Some(s.day))])
  {
    var s1 := s.(flights := s.flights[1 := Flight(h, s.rows[h], None)]);
    assert Overlap(s1, h) == {0, 1};
    LookingUp(cap, h, k, s, 1, s1);
    t := s.(flights := s.flights[1 := Flight(h, s.rows[h], Some(s.day))]);
    assert Overlap(t, h) == {0, 1};
    Deciding(cap, h, k, s1, 1, t);
  }

  /** While a send of the day before is out, today's first one is recorded; the late record
      then takes today's counter away. */
  lemma {:induction false} Straddle(cap: nat, h: Handle, k: nat) returns (s: State)
    requires k >= 2
    ensures Reaches(cap, h, k, s) && Idle(s, h, 0) && Count(s, h) == 1
    ensures s.rows[h].day != Some(s.day) && At(s.late, h) > 0
  {
    var s0 := Straggle(cap, h, k);
    var s1 := OvertakeStraggler(cap, h, k, s0);
    s := Record(s1, s1.flights[0], 0).(flights := map[]);
    assert Overlap(s, h) == {};
    Recording(cap, h, k, s1, 0, s);
    ReachesInv(cap, h, k, s);
  }

  lemma {:induction false} ReachesBound(cap: nat, h: Handle, k: nat, s: State)
    requires Reaches(cap, h, k, s) && k >= 1
    ensures At(s.late, h) == 0 ==> Count(s, h) + |Sending(s, h)| <= Ceiling(cap) + k - 1
    ensures k == 1 ==> At(s.late, h) == 0
  {
    var r :| Ends(r, cap, h, k, s);
    CapUnderOverlap(r, h, k, |r.states| - 1);
    if k == 1 { AloneAlways(r, h, |r.states| - 1); }
  }

  /** Today's deliveries and sends in flight stay within `cap + k - 1`. */
  ghost predicate Within(s: State, h: Handle, k: nat) {
    Count(s, h) + |Sending(s, h)| <= s.cap + k - 1
  }

  /** Without late records every run keeps to `cap + k - 1` if and only if the cap is positive. */
  lemma {:induction false} CapHoldsWithinDay(cap: nat, h: Handle, k: nat)
    requires k >= 1
    ensures (forall s :: Reaches(cap, h, k, s) && At(s.late, h) == 0 ==> Within(s, h, k)) <==> cap >= 1
  {
    forall s | Reaches(cap, h, k, s) && At(s.late, h) == 0 && cap >= 1 ensures Within(s, h, k) {
      ReachesInv(cap, h, k, s);
      ReachesBound(cap, h, k, s);
    }
    var s := BoundIsReached(cap, h, k);
    ReachesInv(cap, h, k, s);
  }

  /** With late records every run keeps to it if and only if, besides, requests never overlap. */
  lemma {:induction false} CapHoldsIff(cap: nat, h: Handle, k: nat)
    requires k >= 1
    ensures (forall s :: Reaches(cap, h, k, s) ==> Within(s, h, k)) <==> cap >= 1 && k == 1
  {
    CapHoldsWithinDay(cap, h, k);
    if k == 1 {
      forall s | Reaches(cap, h, k, s) ensures At(s.late, h) == 0 {
        ReachesBound(cap, h, k, s);
      }
    } else {
      var s := Straddle(cap, h, k);
      s := SpendQuota(cap, h, k, s);
      ReachesInv(cap, h, k, s);
      assert !Within(s, h, k);
    }
  }
}
