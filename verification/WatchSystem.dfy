/** The `WatchAgents` protocol as a transition system: the backend's inventory, the lossy
    bus, the stream's state and its concurrent re-read, for every interleaving. */
module WatchSystem {
  import opened Prelude
  import opened AgentRows
  import opened WatchStates

  /** `inv`, `unpublished` and `queue` are the environment: the backend's rows, the panes
      whose last change has not been announced yet, the events the receiver has not seen.
      `captured` is what the read in flight observed; before the stream opens that read is
      the first snapshot's. `starts` and `handed` record the re-read starts and the messages
      that left the outbox. */
  datatype State = State(
    inv: Rows, unpublished: set<Pane>, queue: seq<Recv>,
    live: bool, st: View, captured: Option<Rows>,
    now: Time, debounce: Time, starts: seq<Time>, handed: seq<AgentEvent>)

  datatype Step =
    | Change(pane: Pane, row: Option<AgentMsg>)   // a backend row appears, changes or goes
    | Publish(event: Recv)                        // the event kernel publishes
    | Pass(time: nat)                             // time passes
    | Capture                                     // the read in flight observes the inventory
    | Open(list: seq<AgentMsg>)                   // the first snapshot is queued
    | Bus                                         // the loop takes the next bus event
    | Lag(missed: nat)                            // the bus dropped the oldest events
    | Start                                       // a re-read starts
    | Finish(answer: Option<seq<AgentMsg>>)       // a re-read ends, `None` on failure
    | Hand                                        // the loop takes a message out of the outbox

  /** Subscribed, first read not answered yet. */
  function Initial(inv: Rows, debounce: Time): State {
    State(inv, {}, [], false, View(map[], {}, false, 0, Some(Flight({}, true, {})), false, []),
          None, 0, debounce, [], [])
  }

  /** A `list_agents` answer for an inventory: its rows in some order, one per pane. */
  ghost predicate Lists(list: seq<AgentMsg>, inv: Rows) {
    DistinctPanes(list) && Hold(list) == inv
  }

  ghost predicate Enabled(s: State, step: Step) {
    match step
    case Change(p, row) => row.Some? ==> row.value.pane == p
    case Publish(ev) => !ev.Lagged? && !ev.BusClosed? && (ev.Closed? ==> ev.pane !in s.inv)
    case Pass(_) => true
    case Capture => s.st.reading.Some? && s.captured.None?
    case Open(list) => !s.live && s.captured.Some? && Lists(list, s.captured.value)
    case Bus => s.live && s.st.outbox == [] && s.queue != []
    case Lag(n) => s.live && s.st.outbox == [] && 0 < n <= |s.queue|
    case Start => s.live && s.st.outbox == [] && s.st.RereadWanted() && s.st.lastList + s.debounce <= s.now
    case Finish(answer) =>
      && s.live && s.st.outbox == [] && s.st.reading.Some?
      && (answer.Some? ==> s.captured.Some? && Lists(answer.value, s.captured.value))
    case Hand => s.live && s.st.outbox != []
  }

  /** The panes whose announced changes an event covers. */
  function Uncovered(unpublished: set<Pane>, ev: Recv): set<Pane> {
    match ev
    case Status(e) => unpublished - {e.pane}
    case Closed(p) => unpublished - {p}
    case Resynced => {}
    case _ => unpublished
  }

  ghost function Do(s: State, step: Step): State
    requires Enabled(s, step)
  {
    match step
    case Change(p, row) =>
      s.(inv := if row.Some? then s.inv[p := row.value] else s.inv - {p}, unpublished := s.unpublished + {p})
    case Publish(ev) => s.(queue := s.queue + [ev], unpublished := Uncovered(s.unpublished, ev))
    case Pass(t) => s.(now := s.now + t)
    case Capture => s.(captured := Some(s.inv))
    case Open(list) =>
      s.(live := true, captured := None, handed := [Snapshot(list)],
         st := View(Hold(list), {}, false, s.now, None, false, []))
    case Bus => s.(queue := s.queue[1..], st := AfterBus(s.st, s.queue[0]))
    case Lag(n) => s.(queue := s.queue[n..], st := AfterBus(s.st, Lagged))
    case Start => s.(st := AfterStart(s.st, s.now), starts := s.starts + [s.now], captured := None)
    case Finish(answer) =>
      s.(st := AfterRead(s.st.(reading := None), s.st.reading.value, answer), captured := None)
    case Hand => s.(st := s.st.(outbox := s.st.outbox[1..]), handed := s.handed + [s.st.outbox[0]])
  }

  /** Every message decided so far, in order. */
  function Decided(s: State): seq<AgentEvent> {
    s.handed + s.st.outbox
  }

  // ----- the invariant ---------------------------------------------------------------

  predicate Mentions(ev: Recv, p: Pane) {
    || (ev.Status? && ev.ev.pane == p)
    || (ev.Closed? && ev.pane == p)
    || ev.Resynced?
  }

  ghost predicate Queued(queue: seq<Recv>, p: Pane) {
    exists i :: 0 <= i < |queue| && Mentions(queue[i], p)
  }

  /** A later read is still owed for `p`, or an announcement about it is on its way. */
  ghost predicate Pending(s: State, p: Pane) {
    p in s.unpublished || Queued(s.queue, p) || p in s.st.stale || s.st.resnapshot
  }

  /** The read in flight answers `p`. */
  ghost predicate InFlight(s: State, p: Pane) {
    s.st.reading.Some? && (s.st.reading.value.resnapshot || p in s.st.reading.value.stale)
  }

  ghost predicate HeldOk(s: State, p: Pane) {
    Get(s.st.held, p) == Get(s.inv, p) || Pending(s, p) || InFlight(s, p)
  }

  /** What the read in flight would write for `p` is current, or `p` is pending anyway. */
  ghost predicate FlightOk(s: State, p: Pane) {
    s.st.reading.Some? ==>
      if p in s.st.reading.value.closed then p !in s.inv || Pending(s, p)
      else s.captured.Some? ==> Get(s.captured.value, p) == Get(s.inv, p) || Pending(s, p)
  }

  /** A queued closure tells the truth, or a later announcement corrects it. */
  ghost predicate ClosureOk(s: State, i: nat, p: Pane) {
    i < |s.queue| && s.queue[i] == Closed(p) ==>
      p !in s.inv || p in s.unpublished || Queued(s.queue[i + 1..], p)
  }

  ghost predicate Shape(s: State) {
    && WellKeyed(s.inv) && WellKeyed(s.st.held)
    && (s.captured.Some? ==> s.st.reading.Some? && WellKeyed(s.captured.value))
    && (!s.live ==>
          && s.st.reading == Some(Flight({}, true, {}))
          && s.st.stale == {} && !s.st.resnapshot && s.st.held == map[]
          && Decided(s) == [] && s.starts == [])
  }

  ghost predicate Replica(s: State) {
    Replay(map[], Decided(s)) == s.st.held
  }

  ghost predicate Inv(s: State) {
    && Shape(s)
    && Replica(s)
    && (forall p: Pane :: HeldOk(s, p))
    && (forall p: Pane :: FlightOk(s, p))
    && (forall i: nat, p: Pane :: ClosureOk(s, i, p))
  }

  lemma {:induction false} QueuedTail(queue: seq<Recv>, n: nat, p: Pane)
    requires n <= |queue|
    ensures Queued(queue[n..], p) ==> Queued(queue, p)
  {
    if Queued(queue[n..], p) {
      var i :| 0 <= i < |queue[n..]| && Mentions(queue[n..][i], p);
      assert Mentions(queue[n + i], p);
    }
  }

  lemma {:induction false} QueuedSnoc(queue: seq<Recv>, ev: Recv, p: Pane)
    ensures Queued(queue + [ev], p) <==> Queued(queue, p) || Mentions(ev, p)
  {
    if Queued(queue, p) {
      var i :| 0 <= i < |queue| && Mentions(queue[i], p);
      assert Mentions((queue + [ev])[i], p);
    }
    if Mentions(ev, p) {
      assert Mentions((queue + [ev])[|queue|], p);
    }
  }

  lemma {:induction false} QueuedHead(queue: seq<Recv>, p: Pane)
    requires queue != []
    ensures Queued(queue, p) <==> Mentions(queue[0], p) || Queued(queue[1..], p)
  {
    QueuedTail(queue, 1, p);
    if Queued(queue, p) && !Mentions(queue[0], p) {
      var i :| 0 <= i < |queue| && Mentions(queue[i], p);
      assert queue[1..][i - 1] == queue[i];
    }
  }

  // ----- each step keeps the invariant -----------------------------------------------

  lemma {:induction false} KeepChange(s: State, step: Step)
    requires Inv(s) && step.Change? && Enabled(s, step)
    ensures Inv(Do(s, step))
  {
    var t := Do(s, step);
    forall p: Pane ensures HeldOk(t, p) && FlightOk(t, p) {
      assert HeldOk(s, p) && FlightOk(s, p);
    }
    forall i: nat, p: Pane ensures ClosureOk(t, i, p) {
      assert ClosureOk(s, i, p);
    }
  }

  lemma {:induction false} KeepPublish(s: State, step: Step)
    requires Inv(s) && step.Publish? && Enabled(s, step)
    ensures Inv(Do(s, step))
  {
    var t := Do(s, step);
    forall p: Pane ensures HeldOk(t, p) && FlightOk(t, p) {
      assert HeldOk(s, p) && FlightOk(s, p);
      QueuedSnoc(s.queue, step.event, p);
    }
    forall i: nat, p: Pane ensures ClosureOk(t, i, p) {
      assert ClosureOk(s, i, p);
      if i < |s.queue| {
        QueuedSnoc(s.queue[i + 1..], step.event, p);
        assert t.queue[i + 1..] == s.queue[i + 1..] + [step.event];
      }
    }
  }

  lemma {:induction false} KeepCapture(s: State, step: Step)
    requires Inv(s) && (step.Capture? || step.Pass?) && Enabled(s, step)
    ensures Inv(Do(s, step))
  {
    var t := Do(s, step);
    forall p: Pane ensures HeldOk(t, p) && FlightOk(t, p) {
      assert HeldOk(s, p) && FlightOk(s, p);
    }
    forall i: nat, p: Pane ensures ClosureOk(t, i, p) {
      assert ClosureOk(s, i, p);
    }
  }

  lemma {:induction false} HoldKeyed(list: seq<AgentMsg>)
    ensures WellKeyed(Hold(list))
  {
    if list != [] { HoldKeyed(DropLast(list)); }
  }

  lemma {:induction false} KeepOpen(s: State, step: Step)
    requires Inv(s) && step.Open? && Enabled(s, step)
    ensures Inv(Do(s, step))
  {
    var t := Do(s, step);
    HoldKeyed(step.list);
    ReplayOne(map[], Snapshot(step.list));
    assert Decided(t) == [Snapshot(step.list)];
    forall p: Pane ensures HeldOk(t, p) && FlightOk(t, p) {
      assert FlightOk(s, p);
    }
    forall i: nat, p: Pane ensures ClosureOk(t, i, p) {
      assert ClosureOk(s, i, p);
    }
  }

  lemma {:induction false} KeepHand(s: State, step: Step)
    requires Inv(s) && step.Hand? && Enabled(s, step)
    ensures Inv(Do(s, step)) && Decided(Do(s, step)) == Decided(s)
  {
    var t := Do(s, step);
    assert Decided(t) == Decided(s);
    forall p: Pane ensures HeldOk(t, p) && FlightOk(t, p) {
      assert HeldOk(s, p) && FlightOk(s, p);
    }
    forall i: nat, p: Pane ensures ClosureOk(t, i, p) {
      assert ClosureOk(s, i, p);
    }
  }

  lemma {:induction false} KeepStart(s: State, step: Step)
    requires Inv(s) && step.Start? && Enabled(s, step)
    ensures Inv(Do(s, step))
  {
    var t := Do(s, step);
    forall p: Pane ensures HeldOk(t, p) && FlightOk(t, p) {
      assert HeldOk(s, p) && FlightOk(s, p);
    }
    forall i: nat, p: Pane ensures ClosureOk(t, i, p) {
      assert ClosureOk(s, i, p);
    }
  }

  /** The stream's rows are what a client makes of the messages decided so far. */
  ghost predicate Mirrors(v: View, before: seq<AgentEvent>) {
    WellKeyed(v.held) && Replay(map[], before + v.outbox) == v.held
  }

  /** One more message keeps the mirror when the rows move as the client's do. */
  lemma {:induction false} MirrorOne(v: View, before: seq<AgentEvent>, ev: AgentEvent, w: View)
    requires Mirrors(v, before) && w.outbox == v.outbox + [ev]
    requires w.held == Apply(v.held, ev) && WellKeyed(w.held)
    ensures Mirrors(w, before)
  {
    var sent := before + w.outbox;
    assert DropLast(sent) == before + v.outbox && Last(sent) == ev;
  }

  /** A bus event changes the held rows exactly as its message tells the client. */
  lemma {:induction false} BusReplica(v: View, recv: Recv, before: seq<AgentEvent>)
    requires Mirrors(v, before)
    ensures Mirrors(AfterBus(v, recv), before)
  {
    var w := AfterBus(v, recv);
    match recv {
      case Status(ev) =>
        var fast := ApplyStatus(v.held, ev);
        if fast.Some? { MirrorOne(v, before, Changed(fast.value), w); }
      case Closed(p) =>
        if p in v.held {
          MirrorOne(v, before, Removed(p), w);
        } else {
          assert w.held == v.held;
        }
      case _ =>
    }
  }

  /** One bus event, seen from one pane: whoever it touches stays pending or is settled. */
  lemma {:induction false} BusAt(s: State, p: Pane)
    requires Inv(s) && Enabled(s, Bus)
    ensures HeldOk(Do(s, Bus), p) && FlightOk(Do(s, Bus), p)
  {
    assert HeldOk(s, p) && FlightOk(s, p) && ClosureOk(s, 0, p);
    QueuedHead(s.queue, p);
    var t, ev := Do(s, Bus), s.queue[0];
    match ev {
      case Closed(q) =>
        if q != p { assert Pending(s, p) ==> Pending(t, p); }
      case Status(e) =>
        if e.pane != p { assert Pending(s, p) ==> Pending(t, p); }
      case _ =>
    }
  }

  lemma {:induction false} KeepBus(s: State, step: Step)
    requires Inv(s) && step.Bus? && Enabled(s, step)
    ensures Inv(Do(s, step))
  {
    var t := Do(s, step);
    BusReplica(s.st, s.queue[0], s.handed);
    forall p: Pane ensures HeldOk(t, p) && FlightOk(t, p) {
      BusAt(s, p);
    }
    forall i: nat, p: Pane ensures ClosureOk(t, i, p) {
      assert ClosureOk(s, i + 1, p);
      if i < |t.queue| {
        assert s.queue[i + 2..] == t.queue[i + 1..];
      }
    }
  }

  lemma {:induction false} KeepLag(s: State, step: Step)
    requires Inv(s) && step.Lag? && Enabled(s, step)
    ensures Inv(Do(s, step))
  {
    var t := Do(s, step);
    forall p: Pane ensures HeldOk(t, p) && FlightOk(t, p) {}
    forall i: nat, p: Pane ensures ClosureOk(t, i, p) {
      assert ClosureOk(s, i + step.missed, p);
      if i < |t.queue| {
        assert s.queue[i + step.missed + 1..] == t.queue[i + 1..];
      }
    }
  }

  /** The outcome of a successful read, pane by pane. */
  lemma {:induction false} ReadAt(v: View, flight: Flight, rows: seq<AgentMsg>, p: Pane)
    requires DistinctPanes(rows)
    ensures var w := AfterRead(v, flight, Some(rows));
      Get(w.held, p) ==
        if !flight.resnapshot && p in v.stale then Get(v.held, p)
        else if p in flight.closed then None
        else Get(Hold(rows), p)
  {
    WithoutShape(rows, flight.closed);
    HoldWithoutAt(rows, flight.closed, p);
    DiffExact(v.held, Without(rows, flight.closed), v.stale);
  }

  lemma {:induction false} NextKeyed(held: Rows, list: seq<AgentMsg>, defer: set<Pane>)
    requires WellKeyed(held)
    ensures WellKeyed(NextRows(held, list, defer))
  {
    HoldKeyed(Without(list, defer));
  }

  /** A re-snapshot replaces everything the client holds. */
  lemma {:induction false} SnapshotReplica(v: View, before: seq<AgentEvent>, list: seq<AgentMsg>)
    ensures Mirrors(AfterSnapshot(v, list), before)
  {
    HoldKeyed(list);
    var sent := before + AfterSnapshot(v, list).outbox;
    assert Last(sent) == Snapshot(list);
  }

  lemma {:induction false} DiffReplica(v: View, before: seq<AgentEvent>, list: seq<AgentMsg>)
    requires Mirrors(v, before) && DistinctPanes(list)
    ensures Mirrors(AfterDiff(v, list), before)
  {
    var out := Deltas(v.held, list, v.stale);
    NextKeyed(v.held, list, v.stale);
    assert before + (v.outbox + out) == (before + v.outbox) + out;
    ReplayConcat(map[], before + v.outbox, out);
    DiffExact(v.held, list, v.stale);
  }

  /** A finished read changes the held rows exactly as its messages tell the client. */
  lemma {:induction false} ReadReplica(v: View, flight: Flight, answer: Option<seq<AgentMsg>>, before: seq<AgentEvent>)
    requires Mirrors(v, before)
    requires answer.Some? ==> DistinctPanes(answer.value)
    ensures Mirrors(AfterRead(v, flight, answer), before)
  {
    if answer.Some? {
      var list := Without(answer.value, flight.closed);
      WithoutShape(answer.value, flight.closed);
      if flight.resnapshot {
        SnapshotReplica(v, before, list);
      } else {
        DiffReplica(v, before, list);
      }
    }
  }

  lemma {:induction false} KeepFinish(s: State, step: Step)
    requires Inv(s) && step.Finish? && Enabled(s, step)
    ensures Inv(Do(s, step))
  {
    var t := Do(s, step);
    var v, flight := s.st.(reading := None), s.st.reading.value;
    ReadReplica(v, flight, step.answer, s.handed);
    forall p: Pane ensures HeldOk(t, p) && FlightOk(t, p) {
      assert HeldOk(s, p) && FlightOk(s, p);
      if step.answer.Some? {
        ReadAt(v, flight, step.answer.value, p);
      }
    }
    forall i: nat, p: Pane ensures ClosureOk(t, i, p) {
      assert ClosureOk(s, i, p);
    }
  }

  lemma {:induction false} KeepInv(s: State, step: Step)
    requires Inv(s) && Enabled(s, step)
    ensures Inv(Do(s, step))
  {
    match step {
      case Change(_, _) => KeepChange(s, step);
      case Publish(_) => KeepPublish(s, step);
      case Pass(_) => KeepCapture(s, step);
      case Capture => KeepCapture(s, step);
      case Open(_) => KeepOpen(s, step);
      case Bus => KeepBus(s, step);
      case Lag(_) => KeepLag(s, step);
      case Start => KeepStart(s, step);
      case Finish(_) => KeepFinish(s, step);
      case Hand => KeepHand(s, step);
    }
  }
}
