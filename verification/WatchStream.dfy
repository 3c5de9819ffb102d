/** The way a decided message takes to the client: the loop's hand, the bounded channel, the
    response stream, and the fatal lane that overtakes them. */
module WatchStreams {
  import opened Prelude
  import opened AgentRows

  /** Bound of the response channel. */
  const CAPACITY: nat := 16

  /** The one-shot fatal channel, as its sender left it. */
  datatype Lane = Armed | Fired | Dropped

  /** What one poll of the stream yields. */
  datatype Poll = Item(ev: AgentEvent) | Failed | End | Pending

  datatype StreamView = StreamView(rx: seq<AgentEvent>, txOpen: bool, lane: Lane, fatal: bool, done: bool)

  /** The first half of a poll looks at the fatal lane; `None` lets the poll go on. */
  function Looked(v: StreamView): (r: (StreamView, Option<Poll>)) {
    if v.done then (v, Some(End))
    else if v.fatal && v.lane.Fired? then (v.(done := true, fatal := false), Some(Failed))
    else (v.(fatal := v.fatal && v.lane.Armed?), None)
  }

  /** The second half receives from the channel. */
  function Received(v: StreamView): (r: (StreamView, Poll)) {
    if v.rx != [] then (v.(rx := v.rx[1..]), Item(v.rx[0]))
    else if v.txOpen then (v, Pending)
    else (v, End)
  }

  /** A poll between whose halves the loop does nothing. */
  function Polled(v: StreamView): (r: (StreamView, Poll)) {
    match Looked(v)
    case (w, Some(out)) => (w, out)
    case (w, None) => Received(w)
  }

  class WatchStream {
    var rx: seq<AgentEvent>   // buffered in the channel
    var txOpen: bool          // a sender is still alive
    var lane: Lane
    var fatal: bool           // the lane is still being watched
    var done: bool            // the fatal status was delivered

    ghost function Abs(): StreamView
      reads this
    {
      StreamView(rx, txOpen, lane, fatal, done)
    }

    constructor (first: AgentEvent)
      ensures Abs() == StreamView([first], true, Armed, true, false)
    {
      rx, txOpen, lane, fatal, done := [first], true, Armed, true, false;
    }

    /** `poll_next` up to the channel. */
    method LookAtLane() returns (out: Option<Poll>)
      modifies this
      ensures (Abs(), out) == Looked(old(Abs()))
    {
      if done { return Some(End); }
      if fatal {
        match lane {
          case Fired =>
            done, fatal := true, false;
            return Some(Failed);
          case Dropped => fatal := false;
          case Armed =>
        }
      }
      out := None;
    }

    /** `rx.poll_recv`. */
    method Receive() returns (out: Poll)
      modifies this
      ensures (Abs(), out) == Received(old(Abs()))
    {
      if rx != [] {
        out := Item(rx[0]);
        rx := rx[1..];
      } else {
        out := if txOpen then Pending else End;
      }
    }

    /** `poll_next`, when the loop leaves the stream alone meanwhile. */
    method PollNext() returns (out: Poll)
      modifies this
      ensures (Abs(), out) == Polled(old(Abs()))
    {
      var early := LookAtLane();
      if early.Some? { return early.value; }
      out := Receive();
    }
  }

  // ----- the path as a transition system ---------------------------------------------

  /** Why the loop ended; `NoFeed` is a stream that never had one. */
  datatype Flow = Gone | Revoked | BusDown | NoFeed

  datatype Loop = Unborn | Running | Ended(flow: Flow)

  /** The loop and the polling client are separate tasks: the loop can act between the halves
      of a poll. `passed` says that a poll is under way and has the lane behind it. `handed`,
      `sent` and `seen` record what left the outbox, what entered the channel and what the
      client's polls yielded. */
  datatype Pipe = Pipe(
    stream: StreamView, passed: bool, inHand: Option<AgentEvent>, loop: Loop, client: bool,
    handed: seq<AgentEvent>, sent: seq<AgentEvent>, seen: seq<Poll>)

  datatype PipeStep =
    | Connect(first: AgentEvent, feed: bool)   // the first snapshot is queued
    | Take(ev: AgentEvent)                     // out of the outbox, waiting for room
    | Permit                                   // room: into the channel
    | Revoke                                   // the token re-check failed
    | Notice                                   // the client's departure is noticed
    | CloseBus                                 // the bus closed
    | Fire                                     // the fatal status is sent
    | DropLane                                 // the loop ended without one
    | DropTx                                   // the loop's channel half is dropped, after the lane
    | Look                                     // the client polls: the lane
    | Receive                                  // the same poll: the channel
    | Leave                                    // the client goes

  function Start(): Pipe {
    Pipe(StreamView([], true, Armed, true, false), false, None, Unborn, false, [], [], [])
  }

  predicate CanPipe(p: Pipe, step: PipeStep) {
    match step
    case Connect(_, _) => p.loop.Unborn?
    case Take(_) => p.loop.Running? && p.inHand.None?
    case Permit => p.loop.Running? && p.inHand.Some? && p.client && |p.stream.rx| < CAPACITY
    case Revoke => p.loop.Running?
    case Notice => p.loop.Running? && !p.client
    case CloseBus => p.loop.Running? && p.inHand.None?
    case Fire => p.loop == Ended(Revoked) && p.stream.lane.Armed?
    case DropLane => p.loop.Ended? && !p.loop.flow.Revoked? && p.stream.lane.Armed?
    case DropTx => p.loop.Ended? && !p.stream.lane.Armed?
    case Look => p.client && !p.passed
    case Receive => p.client && p.passed
    case Leave => p.client && !p.passed
  }

  function DoPipe(p: Pipe, step: PipeStep): Pipe
    requires CanPipe(p, step)
  {
    match step
    case Connect(first, feed) =>
      Pipe(StreamView([first], true, Armed, true, false), false, None, if feed then Running else Ended(NoFeed),
           true, [first], [first], [])
    case Take(ev) => p.(inHand := Some(ev), handed := p.handed + [ev])
    case Permit =>
      var ev := p.inHand.value;
      p.(inHand := None, sent := p.sent + [ev], stream := p.stream.(rx := p.stream.rx + [ev]))
    case Revoke => p.(loop := Ended(Revoked))
    case Notice => p.(loop := Ended(Gone))
    case CloseBus => p.(loop := Ended(BusDown))
    case Fire => p.(stream := p.stream.(lane := Fired))
    case DropLane => p.(stream := p.stream.(lane := Dropped))
    case DropTx => p.(stream := p.stream.(txOpen := false))
    case Look =>
      var (v, out) := Looked(p.stream);
      p.(stream := v, passed := out.None?, seen := if out.None? then p.seen else p.seen + [out.value])
    case Receive =>
      var (v, out) := Received(p.stream);
      p.(stream := v, passed := false, seen := if out.Pending? then p.seen else p.seen + [out])
    case Leave => p.(client := false)
  }

  /** The messages among what the client's polls yielded. */
  function Items(seen: seq<Poll>): seq<AgentEvent> {
    if seen == [] then [] else
    Items(DropLast(seen)) + if Last(seen).Item? then [Last(seen).ev] else []
  }

  /** Messages first; after the first other poll only ends and at most one error, which comes
      at once or right after a single end. */
  ghost predicate Orderly(seen: seq<Poll>) {
    && (forall i :: 0 <= i < |seen| ==> !seen[i].Pending?)
    && (forall i, j :: 0 <= i < j < |seen| && !seen[i].Item? ==>
          seen[j].End? || (seen[j].Failed? && seen[i].End? && j == i + 1))
  }

  ghost predicate AllItems(seen: seq<Poll>) {
    forall i :: 0 <= i < |seen| ==> seen[i].Item?
  }

  /** Messages and one end. */
  ghost predicate JustEnded(seen: seq<Poll>) {
    seen != [] && Last(seen).End? && AllItems(DropLast(seen))
  }

  /** The channel has nothing more to give. */
  predicate Spent(v: StreamView) {
    v.done || (v.rx == [] && !v.txOpen)
  }

  ghost predicate StreamOk(v: StreamView, loop: Loop) {
    && |v.rx| <= CAPACITY
    && (v.done ==> v.lane.Fired? && !v.fatal)
    && (!v.fatal ==> v.done || v.lane.Dropped?)
    && (!v.txOpen ==> !v.lane.Armed? && loop.Ended?)
    && (v.lane.Fired? ==> loop == Ended(Revoked))
    && (v.lane.Dropped? ==> loop.Ended? && !loop.flow.Revoked?)
  }

  /** What the client saw, against what entered the channel. */
  ghost predicate SeenOk(v: StreamView, seen: seq<Poll>, sent: seq<AgentEvent>) {
    && Orderly(seen)
    && (AllItems(seen) || Spent(v))
    && (v.done <==> Failed in seen)
    && (v.lane.Fired? && !v.done ==> AllItems(seen) || JustEnded(seen))
    && Items(seen) + v.rx == sent
  }

  ghost predicate PipeInv(p: Pipe) {
    && StreamOk(p.stream, p.loop)
    && SeenOk(p.stream, p.seen, p.sent)
    && (p.passed ==> !p.stream.done && (p.stream.lane.Fired? ==> AllItems(p.seen)))
    && p.handed == p.sent + (if p.inHand.Some? then [p.inHand.value] else [])
    && (p.loop.Ended? && (p.loop.flow.BusDown? || p.loop.flow.NoFeed?) ==> p.inHand.None?)
    && (p.loop.Unborn? ==> p.seen == [] && p.handed == [] && p.stream == Start().stream && !p.passed && !p.client)
  }

  lemma {:induction false} ItemsSnoc(seen: seq<Poll>, out: Poll)
    ensures Items(seen + [out]) == Items(seen) + if out.Item? then [out.ev] else []
  {
    assert DropLast(seen + [out]) == seen;
  }

  lemma {:induction false} OrderlySnoc(seen: seq<Poll>, out: Poll)
    requires Orderly(seen) && !out.Pending?
    requires out.End? || AllItems(seen) || (out.Failed? && JustEnded(seen))
    ensures Orderly(seen + [out])
  {}

  lemma {:induction false} SeenSnoc(seen: seq<Poll>, out: Poll)
    ensures Failed in seen + [out] <==> Failed in seen || out == Failed
    ensures AllItems(seen + [out]) <==> AllItems(seen) && out.Item?
    ensures JustEnded(seen + [out]) <==> AllItems(seen) && out.End?
  {
    assert DropLast(seen + [out]) == seen;
    assert forall i :: 0 <= i < |seen| ==> (seen + [out])[i] == seen[i];
    assert (seen + [out])[|seen|] == out;
  }

  /** One undisturbed poll, seen from the stream alone. */
  lemma {:induction false} PolledFacts(v: StreamView, loop: Loop)
    requires StreamOk(v, loop)
    ensures var (w, out) := Polled(v);
      && StreamOk(w, loop)
      && (Spent(v) ==> Spent(w) && !out.Item? && !out.Pending?)
      && (out.End? || out.Failed? ==> Spent(w))
      && (out.Failed? <==> v.lane.Fired? && !v.done)
      && (w.done <==> v.done || out.Failed?)
      && v.rx == (if out.Item? then [out.ev] else []) + w.rx
  {}

  lemma {:induction false} LookedFacts(v: StreamView, loop: Loop)
    requires StreamOk(v, loop)
    ensures var (w, out) := Looked(v);
      && StreamOk(w, loop) && w.rx == v.rx && w.txOpen == v.txOpen && w.lane == v.lane
      && (out == if v.done then Some(End) else if v.lane.Fired? then Some(Failed) else None)
      && (w.done <==> v.done || v.lane.Fired?)
      && (w.fatal ==> w.lane.Armed?)   // a lane that resolved is not polled again
  {}

  lemma {:induction false} LookSeen(v: StreamView, seen: seq<Poll>, sent: seq<AgentEvent>, loop: Loop)
    requires StreamOk(v, loop) && SeenOk(v, seen, sent) && v.lane.Fired?
    ensures var (w, out) := Looked(v); out.Some? && SeenOk(w, seen + [out.value], sent)
  {
    LookedFacts(v, loop);
    var out := if v.done then End else Failed;
    ItemsSnoc(seen, out);
    OrderlySnoc(seen, out);
    SeenSnoc(seen, out);
  }

  lemma {:induction false} KeepLook(p: Pipe)
    requires PipeInv(p) && CanPipe(p, Look)
    ensures PipeInv(DoPipe(p, Look))
  {
    LookedFacts(p.stream, p.loop);
    if p.stream.lane.Fired? { LookSeen(p.stream, p.seen, p.sent, p.loop); }
  }

  lemma {:induction false} KeepReceive(p: Pipe)
    requires PipeInv(p) && CanPipe(p, Receive)
    ensures PipeInv(DoPipe(p, Receive))
  {
    var (w, out) := Received(p.stream);
    if !out.Pending? {
      ItemsSnoc(p.seen, out);
      OrderlySnoc(p.seen, out);
      SeenSnoc(p.seen, out);
      Regroup(Items(p.seen), if out.Item? then [out.ev] else [], w.rx);
    }
  }

  lemma {:induction false} KeepPipe(p: Pipe, step: PipeStep)
    requires PipeInv(p) && CanPipe(p, step)
    ensures PipeInv(DoPipe(p, step))
  {
    match step {
      case Look => KeepLook(p);
      case Receive => KeepReceive(p);
      case Permit =>
        var q := DoPipe(p, step);
        assert Items(q.seen) + q.stream.rx == (Items(p.seen) + p.stream.rx) + [p.inHand.value];
      case _ =>
    }
  }

  /** What a move can do to the end of the stream. */
  lemma {:induction false} PipeEnds(p: Pipe, m: PipeStep)
    requires PipeInv(p) && CanPipe(p, m)
    ensures var q := DoPipe(p, m);
      && (p.loop.Ended? ==> q.loop == p.loop)
      && (p.stream.lane.Fired? ==> q.stream.lane.Fired?)
      && (q.stream.lane.Fired? && !p.stream.lane.Fired? ==> m == Fire)
      && (q.loop != p.loop && q.loop == Ended(Gone) ==> m == Notice && !p.client)
      && (q.loop != p.loop && q.loop == Ended(Revoked) ==> m == Revoke)
      && (q.loop != p.loop && q.loop == Ended(BusDown) ==> m == CloseBus)
      && (q.loop != p.loop && q.loop == Ended(NoFeed) ==> m.Connect? && !m.feed)
      && (!p.stream.txOpen ==> !q.stream.txOpen)
      && (p.stream.txOpen && !q.stream.txOpen ==> m == DropTx)
  {}

  lemma {:induction false} LookSees(p: Pipe)
    requires PipeInv(p) && CanPipe(p, Look)
    ensures var q := DoPipe(p, Look);
      && p.seen <= q.seen
      && (q.passed ==> q.seen == p.seen && !p.stream.lane.Fired?)
      && (p.stream.lane.Fired? ==> Failed in q.seen)
      && (q.seen != p.seen ==> Failed in q.seen)
  {
    LookedFacts(p.stream, p.loop);
    if p.stream.lane.Fired? { SeenSnoc(p.seen, if p.stream.done then End else Failed); }
  }

  lemma {:induction false} ReceiveSees(p: Pipe)
    requires CanPipe(p, Receive)
    ensures var q := DoPipe(p, Receive);
      && p.seen <= q.seen && !q.passed
      && (End in q.seen && End !in p.seen ==> !p.stream.txOpen && q.seen == p.seen + [End])
  {}

  /** Once the fatal status is sent, a poll that looks at the lane goes no further: it yields
      the error, and every later one end-of-stream. */
  lemma {:induction false} FatalOvertakes(p: Pipe)
    requires PipeInv(p) && CanPipe(p, Look) && p.stream.lane.Fired?
    ensures var q := DoPipe(p, Look);
      && q.seen == p.seen + [if p.stream.done then End else Failed]
      && q.stream.done && !q.passed && Items(q.seen) == Items(p.seen)
  {
    ItemsSnoc(p.seen, if p.stream.done then End else Failed);
  }

  /** Nothing clears a fired lane; only a poll that has it behind it can still take a message. */
  lemma {:induction false} FatalStays(p: Pipe, m: PipeStep)
    requires PipeInv(p) && CanPipe(p, m) && p.stream.lane.Fired?
    ensures var q := DoPipe(p, m);
      && q.stream.lane.Fired? && (q.passed ==> p.passed)
      && Items(p.seen) <= Items(q.seen)
      && |Items(q.seen)| + (if q.passed then 1 else 0) <= |Items(p.seen)| + (if p.passed then 1 else 0)
  {
    match m {
      case Look => FatalOvertakes(p);
      case Receive => ItemsSnoc(p.seen, Received(p.stream).1);
      case _ =>
    }
  }

  /** What the client read is a prefix of what was decided, in order. */
  lemma {:induction false} ReadsInOrder(p: Pipe)
    requires PipeInv(p)
    ensures Items(p.seen) <= p.sent <= p.handed
  {}

  /** A stream that ended without an error delivered everything that entered the channel, and
      everything decided unless the client had left or the stream was revoked. */
  lemma {:induction false} DrainsFully(p: Pipe)
    requires PipeInv(p) && End in p.seen && Failed !in p.seen
    ensures Spent(p.stream) && Items(p.seen) == p.sent
    ensures p.loop.Ended? && (p.loop.flow.Gone? || p.loop.flow.Revoked? || Items(p.seen) == p.handed)
  {
    var i :| 0 <= i < |p.seen| && p.seen[i] == End;
    assert !AllItems(p.seen);
  }
}
