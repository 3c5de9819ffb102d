/** Which relay a control command reaches. The command is never inspected, so it is a type
    parameter. */
module ControlRouting {
  import opened Prelude

  type ConnId = string

  /** A registered relay. */
  datatype Entry = Entry(session: string, readOnly: bool)

  /** The channel to a relay: `log` is everything ever queued, `taken` how much of it the relay
      has taken; `alive` is false once its inbound task dropped the receiver. A channel outlives
      the relay's entry. */
  datatype Channel<C> = Channel(alive: bool, log: seq<C>, taken: nat)

  /** `Routed` is the ok acknowledgement; `Refused` the fail-closed "reattach required". */
  datatype Ack = Routed | Refused

  type Entries = map<ConnId, Entry>

  type Channels<C> = map<ConnId, Channel<C>>

  /** A herdr session: every connection shares the one session id. */
  predicate Collapsed(session: string) {
    |session| >= 6 && session[..6] == "herdr:"
  }

  /** A collapsed session is one of the herdr backend: the text before its first colon says so. */
  lemma {:induction false} CollapsedIff(session: string)
    ensures Collapsed(session) <==> exists rest :: session == "herdr" + ":" + rest
  {
    if Collapsed(session) {
      assert session == "herdr" + ":" + session[6..];
    }
  }

  /** The request names a registered connection of its own session. */
  predicate Exact(entries: Entries, session: string, conn: ConnId) {
    conn != "" && conn in entries && entries[conn].session == session
  }

  /** The relay may serve a request that names no connection. */
  predicate Serves(e: Entry, session: string) {
    e.session == session && !e.readOnly
  }

  function Pushed<C>(channels: Channels<C>, conn: ConnId, cmd: C): Channels<C>
    requires conn in channels
  {
    channels[conn := channels[conn].(log := channels[conn].log + [cmd])]
  }

  /** Whom a request may steer: its own connection, or, for a read-write caller without one
      on a session that tells connections apart, a writable relay of that session. */
  predicate MaySteer(entries: Entries, session: string, conn: ConnId, readOnly: bool, target: ConnId) {
    && target in entries && entries[target].session == session
    && if Exact(entries, session, conn) then target == conn
       else !readOnly && !Collapsed(session) && !entries[target].readOnly
  }

  /** The outcome of a request nothing interferes with: an ok acknowledgement means one
      permitted relay's log grew by the command; anything else means no channel changed. A
      request that nobody may serve is refused outright unless its caller may act on the
      session as a whole. */
  ghost predicate Outcome<C>(entries: Entries, before: Channels<C>, session: string, conn: ConnId, readOnly: bool,
                             cmd: C, after: Channels<C>, ack: Option<Ack>)
    requires entries.Keys <= before.Keys
  {
    && (ack == Some(Routed) ==>
          exists t :: MaySteer(entries, session, conn, readOnly, t) && before[t].alive
                      && after == Pushed(before, t, cmd))
    && (ack != Some(Routed) ==> after == before)
    && (Exact(entries, session, conn) && before[conn].alive ==> ack == Some(Routed))
    && (Collapsed(session) ==> ack.Some?)
    && (readOnly && !Exact(entries, session, conn) ==> ack == Some(Refused))
    && (ack == Some(Refused) ==> Collapsed(session) || readOnly)
    && (ack.None? ==> || (forall t :: !MaySteer(entries, session, conn, readOnly, t))
                      || (exists d :: MaySteer(entries, session, conn, readOnly, d) && !before[d].alive))
  }

  class ControlRegistry<C(==)> {
    var entries: Entries
    var channels: Channels<C>

    predicate Valid()
      reads this
    {
      entries.Keys <= channels.Keys
    }

    constructor ()
      ensures Valid() && entries == map[] && channels == map[]
    {
      entries, channels := map[], map[];
    }

    /** `sender.send(cmd)`: queued unless the receiver is gone. */
    method Send(conn: ConnId, cmd: C) returns (ok: bool)
      requires conn in channels
      modifies this`channels
      ensures ok == old(channels)[conn].alive
      ensures channels == if ok then Pushed(old(channels), conn, cmd) else old(channels)
    {
      ok := channels[conn].alive;
      if ok {
        channels := channels[conn := channels[conn].(log := channels[conn].log + [cmd])];
      }
    }

    /** `try_route_control`. The registry is scanned in no particular order. */
    method TryRouteControl(session: string, conn: ConnId, readOnly: bool, cmd: C) returns (ack: Option<Ack>)
      requires Valid()
      modifies this`channels
      ensures Valid()
      ensures Outcome(entries, old(channels), session, conn, readOnly, cmd, channels, ack)
    {
      var exact := None;
      if conn != "" && conn in entries && entries[conn].session == session {
        exact := Some(conn);
      }
      var ok := false;
      if Collapsed(session) {
        if exact.Some? {
          ok := Send(conn, cmd);
        }
        return Some(if ok then Routed else Refused);
      }
      var target := conn;
      if exact.None? {
        if readOnly { return Some(Refused); }
        if !exists t :: t in entries && Serves(entries[t], session) { return None; }
        target :| target in entries && Serves(entries[target], session);
      }
      assert MaySteer(entries, session, conn, readOnly, target);
      ok := Send(target, cmd);
      ack := if ok then Some(Routed) else None;
    }
  }

  // ----- requests, joins and departures interleaved ----------------------------------

  type Request = nat

  /** How far a request has come. A scan visits the entries one by one, in no particular order
      and while others join and leave; `start` are those present when it began. A request that
      holds a sender no longer needs the entry. */
  datatype Phase =
    | Asked
    | Missed
    | Scanning(start: set<ConnId>, visited: set<ConnId>)
    | Holding(target: ConnId)
    | Done(ack: Option<Ack>)

  /** `missed` remembers that the lookup of the named connection found nothing. */
  datatype Call = Call(session: string, conn: ConnId, readOnly: bool, missed: bool, phase: Phase)

  /** A request's command is the request itself. `origin` records every relay ever registered;
      connection ids are never reused. */
  datatype State = State(
    entries: Entries, channels: Channels<Request>, origin: Entries, calls: map<Request, Call>)

  datatype Step =
    | Join(conn: ConnId, entry: Entry)
    | Drop(conn: ConnId)                      // the entry is removed
    | Die(conn: ConnId)                       // the receiver goes, the entry may stay
    | Take(conn: ConnId)                      // the relay takes its next command
    | Ask(request: Request, session: string, own: ConnId, readOnly: bool)
    | Look(request: Request)                  // the named connection is looked up
    | Refuse(request: Request)
    | Scan(request: Request)                  // the fallback scan begins
    | Visit(request: Request, conn: ConnId)   // it comes to an entry
    | GiveUp(request: Request)                // it found none
    | Send(request: Request)

  function Initial(): State {
    State(map[], map[], map[], map[])
  }

  predicate InPhase(s: State, n: Request, phase: Phase) {
    n in s.calls && s.calls[n].phase == phase
  }

  /** Collapsed sessions and read-only callers have no fallback. */
  predicate NoFallback(call: Call) {
    Collapsed(call.session) || call.readOnly
  }

  predicate Enabled(s: State, step: Step) {
    match step
    case Join(c, _) => c !in s.origin
    case Drop(c) => c in s.entries
    case Die(c) => c in s.channels
    case Take(c) => c in s.channels && s.channels[c].taken < |s.channels[c].log|
    case Ask(n, _, _, _) => n !in s.calls
    case Look(n) => InPhase(s, n, Asked)
    case Refuse(n) => InPhase(s, n, Missed) && NoFallback(s.calls[n])
    case Scan(n) => InPhase(s, n, Missed) && !NoFallback(s.calls[n])
    case Visit(n, c) => n in s.calls && s.calls[n].phase.Scanning? && c in s.entries && c !in s.calls[n].phase.visited
    case GiveUp(n) =>
      // entries that were there all along have been visited
      && n in s.calls && s.calls[n].phase.Scanning?
      && forall c :: c in s.calls[n].phase.start && c in s.entries ==> c in s.calls[n].phase.visited
    case Send(n) => n in s.calls && s.calls[n].phase.Holding? && s.calls[n].phase.target in s.channels
  }

  function To(s: State, n: Request, phase: Phase): State
    requires n in s.calls
  {
    s.(calls := s.calls[n := s.calls[n].(phase := phase)])
  }

  function Sent(s: State, n: Request): State
    requires n in s.calls && s.calls[n].phase.Holding? && s.calls[n].phase.target in s.channels
  {
    var call := s.calls[n];
    if s.channels[call.phase.target].alive then
      To(s.(channels := Pushed(s.channels, call.phase.target, n)), n, Done(Some(Routed)))
    else To(s, n, Done(if Collapsed(call.session) then Some(Refused) else None))
  }

  function Do(s: State, step: Step): State
    requires Enabled(s, step)
  {
    match step
    case Join(c, e) =>
      State(s.entries[c := e], s.channels[c := Channel(true, [], 0)], s.origin[c := e], s.calls)
    case Drop(c) => s.(entries := s.entries - {c})
    case Die(c) => s.(channels := s.channels[c := s.channels[c].(alive := false)])
    case Take(c) => s.(channels := s.channels[c := s.channels[c].(taken := s.channels[c].taken + 1)])
    case Ask(n, session, conn, ro) => s.(calls := s.calls[n := Call(session, conn, ro, false, Asked)])
    case Look(n) =>
      var call := s.calls[n];
      if Exact(s.entries, call.session, call.conn) then To(s, n, Holding(call.conn))
      else s.(calls := s.calls[n := call.(missed := true, phase := Missed)])
    case Refuse(n) => To(s, n, Done(Some(Refused)))
    case Scan(n) => To(s, n, Scanning(s.entries.Keys, {}))
    case Visit(n, c) =>
      var call := s.calls[n];
      if Serves(s.entries[c], call.session) then To(s, n, Holding(c))
      else To(s, n, Scanning(call.phase.start, call.phase.visited + {c}))
    case GiveUp(n) => To(s, n, Done(None))
    case Send(n) => Sent(s, n)
  }

  datatype Run = Run(states: seq<State>, steps: seq<Step>)

  ghost predicate StepAt(r: Run, i: nat)
    requires i < |r.steps| && |r.states| == |r.steps| + 1
  {
    Enabled(r.states[i], r.steps[i]) && r.states[i + 1] == Do(r.states[i], r.steps[i])
  }

  ghost predicate IsRun(r: Run) {
    && |r.states| == |r.steps| + 1 && r.states[0] == Initial()
    && forall i :: 0 <= i < |r.steps| ==> StepAt(r, i)
  }

  // ----- the invariant ---------------------------------------------------------------

  /** A request may reach its own connection, or, once that was not found, a writable relay of
      its session if the session tells connections apart and its caller may write. */
  predicate Allowed(origin: Entries, call: Call, target: ConnId) {
    && target in origin && origin[target].session == call.session
    && ((target == call.conn && call.conn != "") || (call.missed && !NoFallback(call) && !origin[target].readOnly))
  }

  ghost predicate CallOk(s: State, n: Request) {
    n in s.calls ==>
      match s.calls[n].phase
      case Holding(t) => Allowed(s.origin, s.calls[n], t)
      case Missed => s.calls[n].missed
      case Scanning(_, visited) =>
        && s.calls[n].missed && !NoFallback(s.calls[n])
        && forall c :: c in visited ==> c in s.origin && !Serves(s.origin[c], s.calls[n].session)
      case _ => true
  }

  ghost predicate Known(s: State) {
    && s.origin.Keys == s.channels.Keys
    && forall c :: c in s.entries ==> c in s.origin && s.origin[c] == s.entries[c]
  }

  /** A queued command's request was acknowledged and was allowed to reach this relay. */
  ghost predicate LogOk(s: State, c: ConnId, i: nat) {
    c in s.channels && i < |s.channels[c].log| ==>
      var n := s.channels[c].log[i];
      InPhase(s, n, Done(Some(Routed))) && Allowed(s.origin, s.calls[n], c)
  }

  ghost predicate Logged(s: State, n: Request) {
    exists c, i :: InLog(s, c, i, n)
  }

  predicate InLog(s: State, c: ConnId, i: int, n: Request) {
    c in s.channels && 0 <= i < |s.channels[c].log| && s.channels[c].log[i] == n
  }

  /** No command is queued twice. */
  ghost predicate Unique(s: State) {
    forall n, c, d, i, j :: InLog(s, c, i, n) && InLog(s, d, j, n) ==> c == d && i == j
  }

  ghost predicate Inv(s: State) {
    && Known(s) && Unique(s)
    && (forall n :: CallOk(s, n))
    && (forall c, i :: LogOk(s, c, i))
    && (forall n :: InPhase(s, n, Done(Some(Routed))) ==> Logged(s, n))
  }

  /** A request moves on without touching a channel. */
  lemma {:induction false} KeepCall(s: State, n: Request, call: Call)
    requires Inv(s) && CallOk(s.(calls := s.calls[n := call]), n)
    requires call.phase != Done(Some(Routed)) && !InPhase(s, n, Done(Some(Routed)))
    ensures Inv(s.(calls := s.calls[n := call]))
  {
    var t := s.(calls := s.calls[n := call]);
    forall m ensures CallOk(t, m) {
      assert CallOk(s, m);
    }
    forall c, i ensures LogOk(t, c, i) {
      assert LogOk(s, c, i);
    }
    forall m | InPhase(t, m, Done(Some(Routed))) ensures Logged(t, m) {
      assert InPhase(s, m, Done(Some(Routed))) && Logged(s, m);
      var c, i :| InLog(s, c, i, m);
      assert InLog(t, c, i, m);
    }
    assert forall c, i, m :: InLog(t, c, i, m) ==> InLog(s, c, i, m);
  }

  /** Relays come and go, and take commands, without touching a log. */
  lemma {:induction false} KeepRelays(s: State, t: State)
    requires Inv(s) && Known(t) && t.calls == s.calls
    requires forall c :: c in s.origin ==> c in t.origin && t.origin[c] == s.origin[c]
    requires forall c :: c in t.channels ==>
      t.channels[c].log == if c in s.channels then s.channels[c].log else []
    ensures Inv(t)
  {
    forall m ensures CallOk(t, m) {
      assert CallOk(s, m);
    }
    forall c, i ensures LogOk(t, c, i) {
      assert LogOk(s, c, i);
    }
    forall m | InPhase(t, m, Done(Some(Routed))) ensures Logged(t, m) {
      assert Logged(s, m);
      var c, i :| InLog(s, c, i, m);
      assert InLog(t, c, i, m);
    }
    assert forall c, i, m :: InLog(t, c, i, m) ==> InLog(s, c, i, m);
  }

  /** The command joins the end of one log and is in no other. */
  lemma {:induction false} PushedLogs(s: State, t: State, target: ConnId, n: Request)
    requires target in s.channels && t.channels == Pushed(s.channels, target, n)
    ensures InLog(t, target, |s.channels[target].log|, n)
    ensures forall c, i, m :: InLog(s, c, i, m) ==> InLog(t, c, i, m)
    ensures forall c, i, m :: InLog(t, c, i, m) ==>
      InLog(s, c, i, m) || (c == target && i == |s.channels[target].log| && m == n)
  {}

  lemma {:induction false} NotLogged(s: State, n: Request)
    requires Inv(s) && !InPhase(s, n, Done(Some(Routed)))
    ensures forall c, i :: !InLog(s, c, i, n)
  {
    forall c, i ensures !InLog(s, c, i, n) {
      assert InLog(s, c, i, n) ==> LogOk(s, c, i);
    }
  }

  lemma {:induction false} KeepPush(s: State, n: Request)
    requires Inv(s) && Enabled(s, Send(n)) && s.channels[s.calls[n].phase.target].alive
    ensures Inv(Do(s, Send(n)))
  {
    var t, target := Do(s, Send(n)), s.calls[n].phase.target;
    assert CallOk(s, n);
    PushedLogs(s, t, target, n);
    NotLogged(s, n);
    forall m ensures CallOk(t, m) {
      assert CallOk(s, m);
    }
    forall c, i: nat ensures LogOk(t, c, i) {
      if c in t.channels && i < |t.channels[c].log| {
        var m := t.channels[c].log[i];
        assert InLog(t, c, i, m);
        if InLog(s, c, i, m) { assert LogOk(s, c, i); }
      }
    }
    forall m | InPhase(t, m, Done(Some(Routed))) ensures Logged(t, m) {
      if m == n {
        assert InLog(t, target, |s.channels[target].log|, n);
      } else {
        assert InPhase(s, m, Done(Some(Routed))) && Logged(s, m);
        var c, i :| InLog(s, c, i, m);
        assert InLog(t, c, i, m);
      }
    }
  }

  lemma {:induction false} KeepSend(s: State, n: Request)
    requires Inv(s) && Enabled(s, Send(n))
    ensures Inv(Do(s, Send(n)))
  {
    if s.channels[s.calls[n].phase.target].alive {
      KeepPush(s, n);
    } else {
      KeepCall(s, n, Do(s, Send(n)).calls[n]);
    }
  }

  /** A request's own step other than asking and sending. */
  lemma {:induction false} KeepOwn(s: State, step: Step)
    requires Inv(s) && Enabled(s, step)
    requires step.Look? || step.Refuse? || step.Scan? || step.Visit? || step.GiveUp?
    ensures Inv(Do(s, step))
  {
    var t := Do(s, step);
    assert CallOk(s, step.request);
    KeepCall(s, step.request, t.calls[step.request]);
  }

  lemma {:induction false} KeepInv(s: State, step: Step)
    requires Inv(s) && Enabled(s, step)
    ensures Inv(Do(s, step))
  {
    var t := Do(s, step);
    match step {
      case Join(c, _) => KeepRelays(s, t);
      case Drop(c) => KeepRelays(s, t);
      case Die(c) => KeepRelays(s, t);
      case Take(c) => KeepRelays(s, t);
      case Ask(n, _, _, _) => KeepCall(s, n, t.calls[n]);
      case Send(n) => KeepSend(s, n);
      case _ => KeepOwn(s, step);
    }
  }

  lemma {:induction false} InvAlways(r: Run, k: nat)
    requires IsRun(r) && k < |r.states|
    ensures Inv(r.states[k])
  {
    if k > 0 {
      InvAlways(r, k - 1);
      assert StepAt(r, k - 1);
      KeepInv(r.states[k - 1], r.steps[k - 1]);
    }
  }

  // ----- what holds over every run ---------------------------------------------------

  /** Routing isolation: whatever a relay was ever sent came from an acknowledged request that
      was allowed to reach it. */
  lemma {:induction false} Isolation(r: Run, k: nat, c: ConnId, i: nat)
    requires IsRun(r) && k < |r.states| && c in r.states[k].channels && i < |r.states[k].channels[c].log|
    ensures var s := r.states[k];
      var n := s.channels[c].log[i];
      InPhase(s, n, Done(Some(Routed))) && Allowed(s.origin, s.calls[n], c)
  {
    InvAlways(r, k);
    assert LogOk(r.states[k], c, i);
  }

  /** A read-only caller, and any caller on a collapsed session, only ever reaches the
      connection it named, and a read-only relay is only reached by being named. */
  lemma {:induction false} Confined(r: Run, k: nat, c: ConnId, i: nat)
    requires IsRun(r) && k < |r.states| && c in r.states[k].channels && i < |r.states[k].channels[c].log|
    ensures var s := r.states[k];
      var n := s.channels[c].log[i];
      && n in s.calls && c in s.origin && s.calls[n].session == s.origin[c].session
      && (s.calls[n].readOnly || Collapsed(s.origin[c].session) || s.origin[c].readOnly ==> s.calls[n].conn == c)
      && (s.calls[n].conn == "" ==> s.calls[n].missed)
  {
    Isolation(r, k, c, i);
  }

  /** An ok acknowledgement means exactly that the command was queued, in one place. */
  lemma {:induction false} DeliveredOnce(r: Run, k: nat, n: Request)
    requires IsRun(r) && k < |r.states|
    ensures InPhase(r.states[k], n, Done(Some(Routed))) <==> Logged(r.states[k], n)
    ensures forall c, d, i, j :: InLog(r.states[k], c, i, n) && InLog(r.states[k], d, j, n) ==> c == d && i == j
  {
    var s := r.states[k];
    InvAlways(r, k);
    if Logged(s, n) {
      var c, i :| InLog(s, c, i, n);
      assert LogOk(s, c, i);
    }
  }

  /** A step either leaves a request alone, or is its own and moves it to its next phase. */
  lemma {:induction false} CallMoves(s: State, step: Step, n: Request)
    requires Enabled(s, step) && n in Do(s, step).calls
    ensures var t := Do(s, step);
      || Get(t.calls, n) == Get(s.calls, n)
      || (step.Ask? && n !in s.calls && !t.calls[n].missed && t.calls[n].phase.Asked?)
      || (n in s.calls && t.calls[n] == s.calls[n].(missed := t.calls[n].missed, phase := t.calls[n].phase))
  {}

  lemma {:induction false} MissMoves(s: State, step: Step, n: Request)
    requires Enabled(s, step) && n in Do(s, step).calls && Do(s, step).calls[n].missed
    requires n !in s.calls || !s.calls[n].missed
    ensures step == Look(n) && n in s.calls && !Exact(s.entries, s.calls[n].session, s.calls[n].conn)
  {}

  lemma {:induction false} ScanMoves(s: State, step: Step, n: Request)
    requires Enabled(s, step) && n in Do(s, step).calls && Do(s, step).calls[n].phase.Scanning?
    ensures n in s.calls && if s.calls[n].phase.Scanning?
      then Do(s, step).calls[n].phase.start == s.calls[n].phase.start
      else step == Scan(n) && Do(s, step).calls[n].phase.start == s.entries.Keys
  {}

  /** A request counts as missed only if its connection was not registered for its session at
      the instant it was looked up. */
  lemma {:induction false} MissedAt(r: Run, k: nat, n: Request) returns (i: nat)
    requires IsRun(r) && k < |r.states| && n in r.states[k].calls && r.states[k].calls[n].missed
    ensures i < k && r.steps[i] == Look(n)
    ensures !Exact(r.states[i].entries, r.states[k].calls[n].session, r.states[k].calls[n].conn)
  {
    assert StepAt(r, k - 1);
    var s := r.states[k - 1];
    CallMoves(s, r.steps[k - 1], n);
    if n in s.calls && s.calls[n].missed {
      i := MissedAt(r, k - 1, n);
    } else {
      MissMoves(s, r.steps[k - 1], n);
      i := k - 1;
    }
  }

  /** The entries a scan under way began with. */
  lemma {:induction false} ScanBegan(r: Run, k: nat, n: Request) returns (i: nat)
    requires IsRun(r) && k < |r.states| && n in r.states[k].calls && r.states[k].calls[n].phase.Scanning?
    ensures i < k && r.steps[i] == Scan(n) && r.states[k].calls[n].phase.start == r.states[i].entries.Keys
  {
    assert StepAt(r, k - 1);
    var s := r.states[k - 1];
    ScanMoves(s, r.steps[k - 1], n);
    if n in s.calls && s.calls[n].phase.Scanning? {
      i := ScanBegan(r, k - 1, n);
    } else {
      i := k - 1;
    }
  }

  /** A scan gives up only if no relay that could serve was registered from its start to its
      end. */
  lemma {:induction false} GivesUpOnlyWhenAlone(r: Run, k: nat, n: Request) returns (i: nat)
    requires IsRun(r) && k < |r.steps| && r.steps[k] == GiveUp(n)
    ensures i < k && r.steps[i] == Scan(n) && n in r.states[k].calls
    ensures forall c :: c in r.states[i].entries && c in r.states[k].entries ==>
      !Serves(r.states[k].entries[c], r.states[k].calls[n].session)
  {
    assert StepAt(r, k);
    InvAlways(r, k);
    assert CallOk(r.states[k], n);
    i := ScanBegan(r, k, n);
  }

  // ----- how a request ends ----------------------------------------------------------

  /** What the phase of a request says about its caller. */
  ghost predicate AckOk(s: State, n: Request) {
    n in s.calls ==>
      var call := s.calls[n];
      match call.phase
      case Asked => !call.missed
      case Scanning(_, _) => !NoFallback(call)
      case Holding(_) => call.missed ==> !NoFallback(call)
      case Done(Some(Routed)) => call.missed ==> !NoFallback(call)
      case Done(Some(Refused)) => NoFallback(call)
      case Done(None) => !Collapsed(call.session) && !(call.missed && call.readOnly)
      case _ => true
  }

  lemma {:induction false} AckMoves(s: State, step: Step, n: Request)
    requires Enabled(s, step) && AckOk(s, n)
    ensures AckOk(Do(s, step), n)
  {
    if n in Do(s, step).calls { CallMoves(s, step, n); }
  }

  lemma {:induction false} AckAlways(r: Run, k: nat, n: Request)
    requires IsRun(r) && k < |r.states|
    ensures AckOk(r.states[k], n)
  {
    if k > 0 {
      AckAlways(r, k - 1, n);
      assert StepAt(r, k - 1);
      AckMoves(r.states[k - 1], r.steps[k - 1], n);
    }
  }

  /** Fail-closed: on a collapsed session a request ends routed or refused, never passed on;
      there, and for a read-only caller, one whose connection was not found ends refused. Only
      such requests are refused. */
  lemma {:induction false} FailsClosed(r: Run, k: nat, n: Request, ack: Option<Ack>)
    requires IsRun(r) && k < |r.states| && InPhase(r.states[k], n, Done(ack))
    ensures var call := r.states[k].calls[n];
      && (Collapsed(call.session) ==> ack.Some?)
      && (call.missed && (Collapsed(call.session) || call.readOnly) ==> ack == Some(Refused))
      && (ack == Some(Refused) ==> Collapsed(call.session) || call.readOnly)
  {
    AckAlways(r, k, n);
  }

  /** Step `i` turned request `n` down: it had no fallback, found nobody, or found the receiver
      gone. */
  ghost predicate TurnsDown(r: Run, i: nat, n: Request)
    requires IsRun(r)
  {
    i < |r.steps| &&
    match r.steps[i]
    case Refuse(m) => m == n
    case GiveUp(m) => m == n
    case Send(m) => m == n && InPhaseDead(r.states[i], n)
    case _ => false
  }

  predicate InPhaseDead(s: State, n: Request) {
    && n in s.calls && s.calls[n].phase.Holding? && s.calls[n].phase.target in s.channels
    && !s.channels[s.calls[n].phase.target].alive
  }

  lemma {:induction false} DoneMoves(s: State, step: Step, n: Request)
    requires Enabled(s, step) && n in Do(s, step).calls && Do(s, step).calls[n].phase.Done?
    ensures (n in s.calls && s.calls[n].phase == Do(s, step).calls[n].phase)
         || (step == Refuse(n) && Missed == s.calls[n].phase)
         || (step == GiveUp(n) && s.calls[n].phase.Scanning?)
         || (step == Send(n) && (InPhaseDead(s, n) || InPhase(Do(s, step), n, Done(Some(Routed)))))
  {}

  /** A request ends without being routed only if it was turned down. */
  lemma {:induction false} UnroutedIsTurnedDown(r: Run, k: nat, n: Request, ack: Option<Ack>) returns (i: nat)
    requires IsRun(r) && k < |r.states| && InPhase(r.states[k], n, Done(ack)) && ack != Some(Routed)
    ensures i < k && TurnsDown(r, i, n)
  {
    assert StepAt(r, k - 1);
    DoneMoves(r.states[k - 1], r.steps[k - 1], n);
    i := k - 1;
    if InPhase(r.states[k - 1], n, Done(ack)) {
      i := UnroutedIsTurnedDown(r, k - 1, n, ack);
    }
  }

  /** `d` is `c` later: more may have been queued behind, more taken from the front. */
  ghost predicate LaterChannel(c: Channel<Request>, d: Channel<Request>) {
    c.log <= d.log && c.taken <= d.taken && (d.alive ==> c.alive)
  }

  /** A channel moves only as its relay takes one command, dies, or is sent one; an entry comes
      by its own join and goes by its own drop. */
  lemma {:induction false} ChannelMoves(s: State, step: Step, c: ConnId)
    requires Inv(s) && Enabled(s, step)
    ensures var t := Do(s, step);
      && (c in s.channels ==> c in t.channels && LaterChannel(s.channels[c], t.channels[c]))
      && (c in s.channels && step != Take(c) ==> t.channels[c].taken == s.channels[c].taken)
      && (c in s.channels ==> t.channels[c].taken <= s.channels[c].taken + 1)
      && (c in s.channels && step != Die(c) ==> t.channels[c].alive == s.channels[c].alive)
      && (c in s.channels && !step.Send? ==> t.channels[c].log == s.channels[c].log)
      && (Get(t.entries, c) == Get(s.entries, c) || step == Drop(c) || (step.Join? && step.conn == c))
  {}

  /** A relay gets its commands in the order they were queued: its log only grows at the end. */
  lemma {:induction false} InOrder(r: Run, i: nat, j: nat, c: ConnId)
    requires IsRun(r) && i <= j < |r.states| && c in r.states[i].channels
    ensures c in r.states[j].channels && LaterChannel(r.states[i].channels[c], r.states[j].channels[c])
    decreases j
  {
    if i < j {
      InOrder(r, i, j - 1, c);
      InvAlways(r, j - 1);
      assert StepAt(r, j - 1);
      ChannelMoves(r.states[j - 1], r.steps[j - 1], c);
    }
  }
}
