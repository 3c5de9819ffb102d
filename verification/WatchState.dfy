/** What one `WatchAgents` stream holds and owes its client, and the three ways it moves:
    a bus event, the start of a re-read, the end of one. */
module WatchStates {
  import opened Prelude
  import opened AgentRows

  type Time = nat

  /** What the bus receiver yields. */
  datatype Recv =
    | Status(ev: StatusEvent)
    | Closed(pane: Pane)
    | LayoutChanged
    | Resynced
    | Lagged
    | BusClosed

  /** One re-read in flight: the marks it answers, and the panes closed meanwhile. */
  datatype Flight = Flight(stale: set<Pane>, resnapshot: bool, closed: set<Pane>)

  datatype View = View(
    held: Rows, stale: set<Pane>, resnapshot: bool, lastList: Time,
    reading: Option<Flight>, readFailing: bool, outbox: seq<AgentEvent>)
  {
    /** Some mark is waiting and no read is under way to answer it. */
    predicate RereadWanted() {
      reading.None? && (resnapshot || stale != {})
    }
  }

  function AfterStatus(v: View, ev: StatusEvent): View {
    var marked := v.(stale := v.stale + {ev.pane});
    var fast := ApplyStatus(v.held, ev);
    if fast.None? then marked else
    marked.(held := v.held[fast.value.pane := fast.value], outbox := v.outbox + [Changed(fast.value)])
  }

  function AfterClosed(v: View, p: Pane): View {
    v.(stale := v.stale - {p},
       reading := if v.reading.None? then None else Some(v.reading.value.(closed := v.reading.value.closed + {p})),
       held := v.held - {p},
       outbox := if p in v.held then v.outbox + [Removed(p)] else v.outbox)
  }

  function AfterBus(v: View, recv: Recv): View {
    match recv
    case Status(ev) => AfterStatus(v, ev)
    case Closed(p) => AfterClosed(v, p)
    case Resynced => v.(resnapshot := true)
    case Lagged => v.(resnapshot := true)
    case LayoutChanged => v
    case BusClosed => v
  }

  function AfterStart(v: View, now: Time): View {
    v.(lastList := now, reading := Some(Flight(v.stale, v.resnapshot, {})), stale := {}, resnapshot := false)
  }

  /** The fold of a finished re-read; `answer` is `None` when the read failed. */
  ghost function AfterRead(v: View, flight: Flight, answer: Option<seq<AgentMsg>>): View {
    match answer
    case None =>
      v.(readFailing := true, stale := v.stale + flight.stale, resnapshot := v.resnapshot || flight.resnapshot)
    case Some(rows) =>
      var list := Without(rows, flight.closed);
      if flight.resnapshot then AfterSnapshot(v, list) else AfterDiff(v, list)
  }

  function AfterSnapshot(v: View, list: seq<AgentMsg>): View {
    v.(readFailing := false, held := Hold(list), outbox := v.outbox + [Snapshot(list)])
  }

  /** Panes marked since the read started are deferred to the next one. */
  ghost function AfterDiff(v: View, list: seq<AgentMsg>): View {
    v.(readFailing := false, held := NextRows(v.held, list, v.stale),
       outbox := v.outbox + Deltas(v.held, list, v.stale))
  }

  class WatchState {
    var held: Rows
    var stale: set<Pane>
    var resnapshot: bool
    var lastList: Time
    var reading: Option<Flight>
    var readFailing: bool
    var outbox: seq<AgentEvent>

    ghost function Abs(): View
      reads this
    {
      View(held, stale, resnapshot, lastList, reading, readFailing, outbox)
    }

    constructor (rows: Rows, now: Time)
      ensures Abs() == View(rows, {}, false, now, None, false, [])
    {
      held, stale, resnapshot, lastList, reading, readFailing, outbox := rows, {}, false, now, None, false, [];
    }

    /** `on_bus`; the loop goes on unless the bus is closed. */
    method OnBus(recv: Recv) returns (go: bool)
      modifies this
      ensures Abs() == AfterBus(old(Abs()), recv)
      ensures go <==> !recv.BusClosed?
    {
      go := true;
      match recv {
        case Status(ev) =>
          var fast := ApplyStatus(held, ev);
          if fast.Some? {
            held := held[fast.value.pane := fast.value];
            outbox := outbox + [Changed(fast.value)];
          }
          stale := stale + {ev.pane};
        case Closed(p) =>
          stale := stale - {p};
          if reading.Some? {
            reading := Some(reading.value.(closed := reading.value.closed + {p}));
          }
          if p in held {
            held := held - {p};
            outbox := outbox + [Removed(p)];
          } else {
            assert held - {p} == held;
          }
        case LayoutChanged =>
        case Resynced => resnapshot := true;
        case Lagged => resnapshot := true;
        case BusClosed => go := false;
      }
    }

    /** `start_read`: take every mark into a new flight. */
    method StartRead(now: Time)
      modifies this
      ensures Abs() == AfterStart(old(Abs()), now)
    {
      lastList := now;
      reading := Some(Flight(stale, resnapshot, {}));
      stale, resnapshot := {}, false;
    }

    /** `finish_read`: fold the answer in, or give the marks back. */
    method FinishRead(flight: Flight, answer: Option<seq<AgentMsg>>)
      modifies this
      ensures Abs() == AfterRead(old(Abs()), flight, answer)
    {
      match answer {
        case Some(rows) =>
          readFailing := false;
          var list := Retain(rows, flight.closed);
          if flight.resnapshot {
            held := BuildHeld(list);
            outbox := outbox + [Snapshot(list)];
          } else {
            var next, out := Reconcile(held, list, stale);
            held := next;
            outbox := outbox + out;
          }
        case None =>
          readFailing := true;
          stale := stale + flight.stale;
          resnapshot := resnapshot || flight.resnapshot;
      }
    }
  }

  /** `snapshots.retain(..)`: drop the rows of closed panes. */
  method Retain(rows: seq<AgentMsg>, closed: set<Pane>) returns (list: seq<AgentMsg>)
    ensures list == Without(rows, closed)
  {
    list := [];
    for i := 0 to |rows|
      invariant list == Without(rows[..i], closed)
    {
      WithoutSnoc(rows[..i], rows[i], closed);
      assert rows[..i + 1] == rows[..i] + [rows[i]];
      if rows[i].pane !in closed {
        list := list + [rows[i]];
      }
    }
    assert rows[..|rows|] == rows;
  }

  /** `hold`: collect the rows by pane. */
  method BuildHeld(list: seq<AgentMsg>) returns (held: Rows)
    ensures held == Hold(list)
  {
    held := map[];
    for i := 0 to |list|
      invariant held == Hold(list[..i])
    {
      assert DropLast(list[..i + 1]) == list[..i];
      held := held[list[i].pane := list[i]];
    }
    assert list[..|list|] == list;
  }
}
