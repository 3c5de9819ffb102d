/** The TUI's input pump: read what is ready, keep what is routed, collapse pointer moves,
    route one event per frame. */
module InputPumps {
  import opened Prelude
  import Spacing

  datatype KeyKind = Press | Release | Repeat
  datatype MouseKind = Moved | Pressed(button: nat) | Released(button: nat) | Dragged(button: nat) | Scrolled(dir: nat)

  datatype Event =
    | Key(kind: KeyKind, code: nat)
    | Mouse(mouse: MouseKind, column: nat, row: nat)
    | Paste(text: string)
    | Resize(columns: nat, rows: nat)
    | FocusGained
    | FocusLost

  /** One poll of the terminal and the read it allows. */
  datatype Answer = Ready(event: Event) | Quiet | PollFails | ReadFails

  const MAX_EVENTS_PER_TICK: nat := 256
  const TICK: nat := 50

  predicate IsMove(e: Event) {
    e.Mouse? && e.mouse.Moved?
  }

  predicate Keep(e: Event) {
    match e
    case Key(kind, _) => kind.Press?
    case Mouse(_, _, _) => true
    case Paste(_) => true
    case _ => false
  }

  function Kept(s: seq<Event>): seq<Event> {
    if s == [] then [] else Kept(DropLast(s)) + if Keep(Last(s)) then [Last(s)] else []
  }

  function NonMoves(s: seq<Event>): seq<Event> {
    if s == [] then [] else NonMoves(DropLast(s)) + if IsMove(Last(s)) then [] else [Last(s)]
  }

  /** The events with each move directly followed by a move dropped. */
  function Coalesced(s: seq<Event>): seq<Event> {
    if s == [] then []
    else if |s| > 1 && IsMove(s[0]) && IsMove(s[1]) then Coalesced(s[1..])
    else [s[0]] + Coalesced(s[1..])
  }

  /** What one fill reads: until nothing is ready, something fails, or `room` events. */
  function Gathered(answers: seq<Answer>, room: nat): (r: (seq<Event>, seq<Answer>, bool))
    ensures |r.0| <= room && |r.1| <= |answers|
    ensures room > 0 && answers != [] ==> |r.1| < |answers|
  {
    if room == 0 || answers == [] then ([], answers, true) else
    match answers[0]
    case Quiet => ([], answers[1..], true)
    case PollFails => ([], answers[1..], false)
    case ReadFails => ([], answers[1..], false)
    case Ready(e) =>
      var (raw, rest, ok) := Gathered(answers[1..], room - 1);
      ([e] + raw, rest, ok)
  }

  /** A fill reads the first answers, none skipped. A full batch or an exhausted source leaves
      the rest unread; otherwise the quiet or failing answer that stopped it is used up too. */
  lemma {:induction false} ReadsUntilStopped(answers: seq<Answer>, room: nat)
    ensures var (raw, rest, ok) := Gathered(answers, room);
      && |raw| <= |answers| && (forall i :: 0 <= i < |raw| ==> answers[i] == Ready(raw[i]))
      && (if |raw| == room || |raw| == |answers| then ok && rest == answers[|raw|..]
          else !answers[|raw|].Ready? && rest == answers[|raw| + 1..] && (ok <==> answers[|raw|].Quiet?))
  {
    if room > 0 && answers != [] && answers[0].Ready? {
      ReadsUntilStopped(answers[1..], room - 1);
    }
  }

  /** A fill over `start` has read `raw` and has `answers` to go. */
  ghost predicate Continues(start: seq<Answer>, raw: seq<Event>, answers: seq<Answer>)
    requires |raw| <= MAX_EVENTS_PER_TICK
  {
    var g := Gathered(answers, MAX_EVENTS_PER_TICK - |raw|);
    Gathered(start, MAX_EVENTS_PER_TICK) == (raw + g.0, g.1, g.2)
  }

  lemma {:induction false} GatherOne(start: seq<Answer>, raw: seq<Event>, answers: seq<Answer>)
    requires |raw| < MAX_EVENTS_PER_TICK && answers != [] && answers[0].Ready?
    requires Continues(start, raw, answers)
    ensures Continues(start, raw + [answers[0].event], answers[1..])
  {
    var more := Gathered(answers[1..], MAX_EVENTS_PER_TICK - |raw| - 1).0;
    Regroup(raw, [answers[0].event], more);
  }

  /** `next`: what is routed and what stays pending. */
  function Routed(pending: seq<Event>): (r: (Option<Event>, seq<Event>))
    ensures |r.1| <= |pending|
    ensures r.0.None? <==> pending == []
    ensures pending != [] ==> |r.1| < |pending|
  {
    if pending == [] then (None, [])
    else if |pending| > 1 && IsMove(pending[0]) && IsMove(pending[1]) then Routed(pending[1..])
    else (Some(pending[0]), pending[1..])
  }

  /** The event routed is the first one, or the last of a leading run of moves; the moves
      before it go and everything after it stays. */
  lemma {:induction false} RoutesLatestMove(pending: seq<Event>)
    requires pending != []
    ensures var r := Routed(pending);
      var n := |pending| - |r.1| - 1;
      && r == (Some(pending[n]), pending[n + 1..])
      && (n > 0 ==> forall i :: 0 <= i <= n ==> IsMove(pending[i]))
      && !(r.1 != [] && IsMove(pending[n]) && IsMove(r.1[0]))
  {
    if |pending| > 1 && IsMove(pending[0]) && IsMove(pending[1]) {
      RoutesLatestMove(pending[1..]);
    }
  }

  /** `coalesce_moves`. */
  method CoalesceMoves(events: seq<Event>) returns (out: seq<Event>)
    ensures out == Coalesced(events)
  {
    out := [];
    for i := 0 to |events|
      invariant out == Coalesced(events[..i])
    {
      CoalescedSnoc(events[..i], events[i]);
      assert events[..i + 1] == events[..i] + [events[i]];
      if IsMove(events[i]) && out != [] && IsMove(out[|out| - 1]) {
        out := out[..|out| - 1];
      }
      out := out + [events[i]];
    }
    assert events[..|events|] == events;
  }

  /** `filter(keep_event)`. */
  method KeepEvents(raw: seq<Event>) returns (kept: seq<Event>)
    ensures kept == Kept(raw)
  {
    kept := [];
    for i := 0 to |raw|
      invariant kept == Kept(raw[..i])
    {
      assert DropLast(raw[..i + 1]) == raw[..i];
      if Keep(raw[i]) { kept := kept + [raw[i]]; }
    }
    assert raw[..|raw|] == raw;
  }

  /** `fill`: what is pending and unread afterwards, and whether it succeeded. */
  function Refilled(pending: seq<Event>, answers: seq<Answer>): (seq<Event>, seq<Answer>, bool) {
    if pending != [] then (pending, answers, true) else
    var (raw, rest, ok) := Gathered(answers, MAX_EVENTS_PER_TICK);
    (if ok then Coalesced(Kept(raw)) else [], rest, ok)
  }

  class EventSource {
    /** What the terminal will answer; nothing is ready past the end. */
    var answers: seq<Answer>

    constructor (answers: seq<Answer>)
      ensures this.answers == answers
    {
      this.answers := answers;
    }
  }

  class InputPump {
    var pending: seq<Event>
    var lastTick: nat

    constructor (now: nat)
      ensures pending == [] && lastTick == now
    {
      pending, lastTick := [], now;
    }

    /** `fill`: refill an empty queue. A failure drops what this call had read. */
    method Fill(source: EventSource) returns (ok: bool)
      modifies this`pending, source
      ensures (pending, source.answers, ok) == Refilled(old(pending), old(source.answers))
      // only an empty queue is refilled, and then a failure leaves it empty
      ensures old(pending) != [] ==> ok && pending == old(pending) && source.answers == old(source.answers)
      ensures !ok ==> pending == []
    {
      ok := true;
      if pending != [] { return; }
      var raw: seq<Event> := [];
      ghost var start := source.answers;
      assert [] + Gathered(start, MAX_EVENTS_PER_TICK).0 == Gathered(start, MAX_EVENTS_PER_TICK).0;
      while |raw| < MAX_EVENTS_PER_TICK && source.answers != []
        invariant |raw| <= MAX_EVENTS_PER_TICK && pending == []
        invariant Continues(start, raw, source.answers)
        decreases |source.answers|
      {
        var answer := source.answers[0];
        source.answers := source.answers[1..];
        if answer.PollFails? || answer.ReadFails? { return false; }
        if answer.Quiet? { break; }
        GatherOne(start, raw, [answer] + source.answers);
        raw := raw + [answer.event];
      }
      assert raw + [] == raw;
      var kept := KeepEvents(raw);
      pending := CoalesceMoves(kept);
    }

    /** `next`. */
    method Next() returns (event: Option<Event>)
      modifies this`pending
      ensures (event, pending) == Routed(old(pending))
    {
      if pending == [] { return None; }
      var e := pending[0];
      pending := pending[1..];
      while IsMove(e) && pending != [] && IsMove(pending[0])
        invariant Routed([e] + pending) == Routed(old(pending))
        decreases |pending|
      {
        assert ([e] + pending)[1..] == pending;
        assert pending == [pending[0]] + pending[1..];
        e := pending[0];
        pending := pending[1..];
      }
      assert ([e] + pending)[1..] == pending;
      event := Some(e);
    }

    /** `heartbeat_due`. */
    method HeartbeatDue(now: nat) returns (due: bool)
      modifies this`lastTick
      ensures due <==> old(lastTick) + TICK <= now
      ensures lastTick == if due then now else old(lastTick)
    {
      due := (if now >= lastTick then now - lastTick else 0) >= TICK;
      if due { lastTick := now; }
    }
  }

  // ----- coalescing ------------------------------------------------------------------

  lemma {:induction false} CoalescedLast(s: seq<Event>)
    requires s != []
    ensures Coalesced(s) != [] && Last(Coalesced(s)) == Last(s)
  {
    if |s| > 1 { CoalescedLast(s[1..]); }
  }

  lemma {:induction false} CoalescedSnoc(s: seq<Event>, e: Event)
    ensures s != [] ==> Coalesced(s) != [] && Last(Coalesced(s)) == Last(s)
    ensures Coalesced(s + [e]) ==
      if s != [] && IsMove(e) && IsMove(Last(s)) then DropLast(Coalesced(s)) + [e] else Coalesced(s) + [e]
  {
    if s == [] {
      assert s + [e] == [e];
    } else {
      CoalescedLast(s);
      assert (s + [e])[1..] == s[1..] + [e];
      CoalescedSnoc(s[1..], e);
      if |s| == 1 {
        assert s[1..] + [e] == [e];
      }
    }
  }

  /** No move is directly followed by another. */
  ghost predicate Settled(s: seq<Event>) {
    forall i :: 0 < i < |s| ==> !(IsMove(s[i - 1]) && IsMove(s[i]))
  }

  lemma {:induction false} SettledIsFixed(s: seq<Event>)
    requires Settled(s)
    ensures Coalesced(s) == s
  {
    if s != [] { SettledIsFixed(s[1..]); }
  }

  lemma {:induction false} CoalescedSettles(s: seq<Event>)
    ensures Settled(Coalesced(s))
    ensures s != [] ==> Coalesced(s) != []
    // the first survivor is a move only if everything before it was
    ensures s != [] && !IsMove(s[0]) ==> Coalesced(s)[0] == s[0]
  {
    if s != [] { CoalescedSettles(s[1..]); }
  }

  /** `coalesce_moves` is idempotent. */
  lemma {:induction false} CoalesceIdempotent(s: seq<Event>)
    ensures Coalesced(Coalesced(s)) == Coalesced(s)
  {
    CoalescedSettles(s);
    SettledIsFixed(Coalesced(s));
  }

  /** Routing until the queue is empty. */
  ghost function Drained(pending: seq<Event>): seq<Event>
    decreases |pending|
  {
    if pending == [] then [] else
    var (e, rest) := Routed(pending);
    [e.value] + Drained(rest)
  }

  lemma {:induction false} DrainCoalesces(pending: seq<Event>)
    ensures Drained(pending) == Coalesced(pending)
    decreases |pending|
  {
    if pending != [] { DrainCoalesces(pending[1..]); }
  }

  /** Draining one fill routes the kept input with each superseded move dropped. */
  lemma {:induction false} DrainOneFill(raw: seq<Event>)
    ensures Drained(Coalesced(Kept(raw))) == Coalesced(Kept(raw))
  {
    DrainCoalesces(Coalesced(Kept(raw)));
    CoalesceIdempotent(Kept(raw));
  }

  // ----- nothing but moves is lost ---------------------------------------------------

  lemma {:induction false} NonMovesConcat(a: seq<Event>, b: seq<Event>)
    ensures NonMoves(a + b) == NonMoves(a) + NonMoves(b)
    decreases |b|
  {
    if b == [] {
      assert a + b == a;
    } else {
      assert DropLast(a + b) == a + DropLast(b) && Last(a + b) == Last(b);
      NonMovesConcat(a, DropLast(b));
      var tail := NonMoves(b)[|NonMoves(DropLast(b))|..];
      assert NonMoves(b) == NonMoves(DropLast(b)) + tail;
      assert NonMoves(a + b) == (NonMoves(a) + NonMoves(DropLast(b))) + tail;
    }
  }

  lemma {:induction false} NonMovesHead(s: seq<Event>)
    requires s != []
    ensures NonMoves(s) == (if IsMove(s[0]) then [] else [s[0]]) + NonMoves(s[1..])
  {
    NonMovesConcat([s[0]], s[1..]);
    assert [s[0]] + s[1..] == s;
    assert DropLast([s[0]]) == [];
  }

  lemma {:induction false} KeptConcat(a: seq<Event>, b: seq<Event>)
    ensures Kept(a + b) == Kept(a) + Kept(b)
    decreases |b|
  {
    if b == [] {
      assert a + b == a;
    } else {
      assert DropLast(a + b) == a + DropLast(b) && Last(a + b) == Last(b);
      KeptConcat(a, DropLast(b));
      var tail := Kept(b)[|Kept(DropLast(b))|..];
      assert Kept(b) == Kept(DropLast(b)) + tail;
      assert Kept(a + b) == (Kept(a) + Kept(DropLast(b))) + tail;
    }
  }

  lemma {:induction false} CoalescedKeepsNonMoves(s: seq<Event>)
    ensures NonMoves(Coalesced(s)) == NonMoves(s)
  {
    if s != [] {
      CoalescedKeepsNonMoves(s[1..]);
      NonMovesHead(s);
      if !(|s| > 1 && IsMove(s[0]) && IsMove(s[1])) {
        NonMovesHead(Coalesced(s));
        assert Coalesced(s)[1..] == Coalesced(s[1..]);
      }
    }
  }

  lemma {:induction false} RoutedKeepsNonMoves(pending: seq<Event>)
    requires pending != []
    ensures var (e, rest) := Routed(pending);
      NonMoves(pending) == NonMoves([e.value]) + NonMoves(rest)
  {
    NonMovesHead(pending);
    if |pending| > 1 && IsMove(pending[0]) && IsMove(pending[1]) {
      RoutedKeepsNonMoves(pending[1..]);
    } else {
      NonMovesHead([pending[0]]);
      assert [pending[0]][1..] == [];
    }
  }

  /** One call into the pump. */
  datatype Op = Fill | Next

  /** `answers` is what the source still has to answer, `read` everything read from it,
      `batched` the part of it read by fills that succeeded, `routed` everything routed. */
  datatype PumpState = PumpState(
    answers: seq<Answer>, pending: seq<Event>, read: seq<Event>, batched: seq<Event>, routed: seq<Event>)

  function Turn(s: PumpState, op: Op): PumpState {
    match op
    case Fill =>
      if s.pending != [] then s else
      var (pending, rest, ok) := Refilled(s.pending, s.answers);
      var raw := Gathered(s.answers, MAX_EVENTS_PER_TICK).0;
      var t := s.(answers := rest, pending := pending, read := s.read + raw);
      if ok then t.(batched := s.batched + raw) else t
    case Next =>
      var (e, rest) := Routed(s.pending);
      s.(pending := rest, routed := s.routed + if e.Some? then [e.value] else [])
  }

  /** The pump after any calls over one source. */
  function Turns(source: seq<Answer>, ops: seq<Op>): PumpState {
    if ops == [] then PumpState(source, [], [], [], []) else Turn(Turns(source, DropLast(ops)), Last(ops))
  }

  /** The events among some answers. */
  function Events(answers: seq<Answer>): seq<Event> {
    if answers == [] then []
    else (if answers[0].Ready? then [answers[0].event] else []) + Events(answers[1..])
  }

  lemma {:induction false} GatheredEvents(answers: seq<Answer>, room: nat)
    ensures var g := Gathered(answers, room); Events(answers) == g.0 + Events(g.1)
  {
    var g := Gathered(answers, room);
    if room == 0 || answers == [] || !answers[0].Ready? {
      assert g.0 == [] && Events(answers) == Events(g.1);
    } else {
      GatheredEvents(answers[1..], room - 1);
      var h := Gathered(answers[1..], room - 1);
      assert g == ([answers[0].event] + h.0, h.1, h.2);
      Regroup([answers[0].event], h.0, Events(h.1));
    }
  }

  /** The source is read in order: what was read and what is unread are all its events. */
  lemma {:induction false} ReadsInOrder(source: seq<Answer>, ops: seq<Op>)
    ensures var s := Turns(source, ops); Events(source) == s.read + Events(s.answers)
  {
    if ops != [] {
      ReadsInOrder(source, DropLast(ops));
      var s := Turns(source, DropLast(ops));
      var g := Gathered(s.answers, MAX_EVENTS_PER_TICK);
      GatheredEvents(s.answers, MAX_EVENTS_PER_TICK);
      Regroup(s.read, g.0, Events(g.1));
    }
  }

  /** What routing can deliver of some input. */
  function Owed(read: seq<Event>): seq<Event> {
    NonMoves(Kept(read))
  }

  lemma {:induction false} OwedConcat(a: seq<Event>, b: seq<Event>)
    ensures Owed(a + b) == Owed(a) + Owed(b)
  {
    KeptConcat(a, b);
    NonMovesConcat(Kept(a), Kept(b));
  }

  /** The non-moves routed so far and still pending. */
  function Passed(s: PumpState): seq<Event> {
    NonMoves(s.routed) + NonMoves(s.pending)
  }

  lemma {:induction false} NextKeepsPassed(s: PumpState)
    ensures Passed(Turn(s, Next)) == Passed(s)
  {
    if s.pending == [] {
      assert s.routed + [] == s.routed;
    } else {
      var (e, rest) := Routed(s.pending);
      RoutedKeepsNonMoves(s.pending);
      NonMovesConcat(s.routed, [e.value]);
      Regroup(NonMoves(s.routed), NonMoves([e.value]), NonMoves(rest));
    }
  }

  /** For every source and interleaving, what was routed and what is pending hold exactly the
      kept non-move events the successful fills read, in order, none repeated. */
  lemma {:induction false} BatchesArePassedOn(source: seq<Answer>, ops: seq<Op>)
    ensures var s := Turns(source, ops); Passed(s) == Owed(s.batched)
  {
    if ops != [] {
      BatchesArePassedOn(source, DropLast(ops));
      var s := Turns(source, DropLast(ops));
      if Last(ops).Next? {
        NextKeepsPassed(s);
      } else {
        var raw := Gathered(s.answers, MAX_EVENTS_PER_TICK).0;
        CoalescedKeepsNonMoves(Kept(raw));
        OwedConcat(s.batched, raw);
      }
    }
  }

  /** What the next fill would read and throw away: its batch, when it fails. */
  function Discards(s: PumpState): seq<Event> {
    var (raw, _, ok) := Gathered(s.answers, MAX_EVENTS_PER_TICK);
    if s.pending == [] && !ok then raw else []
  }

  /** No fill fails after reading an event that routing owed. */
  predicate FailsClean(source: seq<Answer>, ops: seq<Op>) {
    ops == [] ||
    (FailsClean(source, DropLast(ops)) && (Last(ops).Fill? ==> Owed(Discards(Turns(source, DropLast(ops)))) == []))
  }

  /** Each fill adds to the owed input read either what it batches or what it discards. */
  lemma {:induction false} FillSplits(s: PumpState)
    ensures var t := Turn(s, Fill);
      && Owed(t.read) == Owed(s.read) + Owed(t.read[|s.read|..])
      && Owed(t.batched) == Owed(s.batched) + Owed(t.batched[|s.batched|..])
      && |Owed(t.read[|s.read|..])| == |Owed(t.batched[|s.batched|..])| + |Owed(Discards(s))|
      && (Discards(s) == [] ==> t.read[|s.read|..] == t.batched[|s.batched|..])
  {
    var t, raw := Turn(s, Fill), Gathered(s.answers, MAX_EVENTS_PER_TICK).0;
    OwedConcat(s.read, t.read[|s.read|..]);
    OwedConcat(s.batched, t.batched[|s.batched|..]);
    assert s.read + t.read[|s.read|..] == t.read;
    assert s.batched + t.batched[|s.batched|..] == t.batched;
  }

  /** The owed input read is longer than what was batched as soon as a fill failed uncleanly,
      and is the same otherwise. */
  lemma {:induction false} BatchedIff(source: seq<Answer>, ops: seq<Op>)
    ensures var s := Turns(source, ops);
      && |Owed(s.batched)| <= |Owed(s.read)|
      && (FailsClean(source, ops) ==> Owed(s.batched) == Owed(s.read))
      && (!FailsClean(source, ops) ==> |Owed(s.batched)| < |Owed(s.read)|)
  {
    if ops != [] {
      BatchedIff(source, DropLast(ops));
      FillSplits(Turns(source, DropLast(ops)));
    }
  }

  /** The pump passes on exactly the kept non-moves it read, in order, none lost and none
      repeated, if and only if no fill failed after reading one. */
  lemma {:induction false} PumpIsFaithfulIff(source: seq<Answer>, ops: seq<Op>)
    ensures var s := Turns(source, ops); Passed(s) == Owed(s.read) <==> FailsClean(source, ops)
  {
    BatchesArePassedOn(source, ops);
    BatchedIff(source, ops);
  }

  // ----- which sources are safe ------------------------------------------------------

  /** Cut into the batches fills take, the source has none that fails and holds an event
      routing owes. */
  predicate SafeSource(answers: seq<Answer>)
    decreases |answers|
  {
    answers == [] ||
    var (raw, rest, ok) := Gathered(answers, MAX_EVENTS_PER_TICK);
    (ok || Owed(raw) == []) && SafeSource(rest)
  }

  predicate Faithful(source: seq<Answer>, ops: seq<Op>) {
    var s := Turns(source, ops); Passed(s) == Owed(s.read)
  }

  lemma {:induction false} SafeAlways(source: seq<Answer>, ops: seq<Op>)
    requires SafeSource(source)
    ensures FailsClean(source, ops) && SafeSource(Turns(source, ops).answers)
  {
    if ops != [] { SafeAlways(source, DropLast(ops)); }
  }

  lemma {:induction false} TurnsOn(source: seq<Answer>, ops: seq<Op>, op: Op)
    ensures Turns(source, ops + [op]) == Turn(Turns(source, ops), op)
    ensures FailsClean(source, ops + [op]) <==>
      FailsClean(source, ops) && (op.Fill? ==> Owed(Discards(Turns(source, ops))) == [])
  {
    assert DropLast(ops + [op]) == ops;
  }

  /** Enough calls of `next` empty the queue. */
  lemma {:induction false} Empties(source: seq<Answer>, ops: seq<Op>) returns (more: seq<Op>)
    ensures Turns(source, more).pending == [] && Turns(source, more).answers == Turns(source, ops).answers
    decreases |Turns(source, ops).pending|
  {
    more := ops;
    if Turns(source, ops).pending != [] {
      TurnsOn(source, ops, Next);
      more := Empties(source, ops + [Next]);
    }
  }

  /** An unsafe source loses an event under some calls. */
  lemma {:induction false} FindLoss(source: seq<Answer>, ops: seq<Op>) returns (bad: seq<Op>)
    requires Turns(source, ops).pending == [] && !SafeSource(Turns(source, ops).answers)
    ensures !FailsClean(source, bad)
    decreases |Turns(source, ops).answers|
  {
    var s := Turns(source, ops);
    var (raw, rest, ok) := Gathered(s.answers, MAX_EVENTS_PER_TICK);
    TurnsOn(source, ops, Fill);
    bad := ops + [Fill];
    if ok || Owed(raw) == [] {
      bad := Empties(source, bad);
      bad := FindLoss(source, bad);
    }
  }

  /** A source is passed on faithfully under all calls if and only if it is safe. */
  lemma {:induction false} SafeSourceIff(source: seq<Answer>)
    ensures (forall ops: seq<Op> :: Faithful(source, ops)) <==> SafeSource(source)
  {
    if SafeSource(source) {
      forall ops: seq<Op> ensures Faithful(source, ops) {
        SafeAlways(source, ops);
        PumpIsFaithfulIff(source, ops);
      }
    } else {
      var bad := FindLoss(source, []);
      PumpIsFaithfulIff(source, bad);
      assert !Faithful(source, bad);
    }
  }

  lemma {:induction false} ReadsThenFails(e: Event, failure: Answer, room: nat)
    requires room > 1 && (failure.PollFails? || failure.ReadFails?)
    ensures Gathered([Ready(e), failure], room) == ([e], [], false)
  {
    assert [Ready(e), failure][1..] == [failure] && [e] + [] == [e];
  }

  lemma {:induction false} FillFails(s: PumpState, e: Event, failure: Answer)
    requires s.pending == [] && s.answers == [Ready(e), failure] && (failure.PollFails? || failure.ReadFails?)
    ensures Turn(s, Fill) == s.(answers := [], read := s.read + [e])
  {
    ReadsThenFails(e, failure, MAX_EVENTS_PER_TICK);
  }

  /** A key read before the source fails in the same fill is gone: read, and neither routed
      nor pending. */
  lemma {:induction false} FailingFillLosesKey(code: nat, failure: Answer)
    requires failure.PollFails? || failure.ReadFails?
    ensures var key := Key(Press, code);
      var s := Turns([Ready(key), failure], [Fill]);
      s.read == [key] && s.pending == [] && s.routed == [] && Passed(s) != Owed(s.read)
  {
    var key := Key(Press, code);
    var source := [Ready(key), failure];
    FillFails(PumpState(source, [], [], [], []), key, failure);
    assert Turns(source, [Fill]) == Turn(Turns(source, []), Fill) by {
      assert DropLast([Fill]) == [];
    }
    assert DropLast([key]) == [] && Kept([key]) == [key];
  }

  // ----- heartbeats ------------------------------------------------------------------

  /** The instants at which a pump made at `start` and asked at `nows` beats. */
  function Beats(start: nat, nows: seq<nat>): seq<nat> {
    if nows == [] then [] else
    var before := Beats(start, DropLast(nows));
    var last := if before == [] then start else Last(before);
    if last + TICK <= Last(nows) then before + [Last(nows)] else before
  }

  /** Heartbeats are a tick apart, so a window of length L sees at most L/TICK + 1. */
  lemma {:induction false} HeartbeatsSpaced(start: nat, nows: seq<nat>)
    ensures Spacing.Spaced(Beats(start, nows), TICK)
    ensures forall from: nat, to: nat :: from <= to ==>
      Spacing.CountIn(Beats(start, nows), from, to) <= (to - from) / TICK + 1
  {
    if nows != [] { HeartbeatsSpaced(start, DropLast(nows)); }
    forall from: nat, to: nat | from <= to
      ensures Spacing.CountIn(Beats(start, nows), from, to) <= (to - from) / TICK + 1
    {
      Spacing.WindowBound(Beats(start, nows), TICK, from, to);
    }
  }

  /** A heartbeat is never overdue: right after the pump was asked, the last one is less than a
      tick old. */
  lemma {:induction false} NeverOverdue(start: nat, nows: seq<nat>)
    requires nows != []
    ensures var beats := Beats(start, nows);
      Last(nows) < (if beats == [] then start else Last(beats)) + TICK
  {}
}
