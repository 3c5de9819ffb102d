/** The whole of one `WatchAgents` stream: the replication protocol feeding the delivery
    path, up to what the client has read. */
module WatchEndToEnd {
  import opened AgentRows
  import opened WatchStates
  import S = WatchSystem
  import R = WatchRuns
  import W = WatchStreams

  datatype Node = Node(sys: S.State, pipe: W.Pipe)

  datatype NodeStep =
    | Env(env: S.Step)                              // backend, kernel, clock, the read's capture
    | Loop(act: S.Step)                             // a branch of the loop's select
    | Open(list: seq<AgentMsg>, feed: bool)
    | Hand                                          // the loop pops the outbox
    | Path(move: W.PipeStep)

  function Begin(inv: Rows, debounce: Time): Node {
    Node(S.Initial(inv, debounce), W.Start())
  }

  /** The loop reaches its select only with an empty hand and an empty outbox. */
  ghost predicate Can(n: Node, step: NodeStep) {
    match step
    case Env(e) => (e.Change? || e.Publish? || e.Pass? || e.Capture?) && S.Enabled(n.sys, e)
    case Loop(a) =>
      && (a.Bus? || a.Lag? || a.Start? || a.Finish?) && S.Enabled(n.sys, a)
      && n.pipe.loop.Running? && n.pipe.inHand.None?
    case Open(list, feed) => S.Enabled(n.sys, S.Open(list)) && n.pipe.loop.Unborn?
    case Hand => S.Enabled(n.sys, S.Hand) && W.CanPipe(n.pipe, W.Take(n.sys.st.outbox[0]))
    case Path(m) =>
      && !m.Connect? && !m.Take? && W.CanPipe(n.pipe, m)
      && (m.CloseBus? ==> n.sys.st.outbox == [])
  }

  ghost function Do(n: Node, step: NodeStep): Node
    requires Can(n, step)
  {
    match step
    case Env(e) => n.(sys := S.Do(n.sys, e))
    case Loop(a) => n.(sys := S.Do(n.sys, a))
    case Open(list, feed) =>
      Node(S.Do(n.sys, S.Open(list)), W.DoPipe(n.pipe, W.Connect(Snapshot(list), feed)))
    case Hand =>
      Node(S.Do(n.sys, S.Hand), W.DoPipe(n.pipe, W.Take(n.sys.st.outbox[0])))
    case Path(m) => n.(pipe := W.DoPipe(n.pipe, m))
  }

  datatype NodeRun = NodeRun(nodes: seq<Node>, steps: seq<NodeStep>)

  ghost predicate StepAt(r: NodeRun, i: nat)
    requires i < |r.steps| && |r.nodes| == |r.steps| + 1
  {
    Can(r.nodes[i], r.steps[i]) && r.nodes[i + 1] == Do(r.nodes[i], r.steps[i])
  }

  ghost predicate IsRun(r: NodeRun) {
    && |r.nodes| == |r.steps| + 1
    && r.nodes[0] == Begin(r.nodes[0].sys.inv, r.nodes[0].sys.debounce)
    && WellKeyed(r.nodes[0].sys.inv)
    && forall i :: 0 <= i < |r.steps| ==> StepAt(r, i)
  }

  /** A loop that ended because the bus closed, or never ran, left nothing in its outbox. */
  ghost predicate Flushed(n: Node) {
    n.pipe.loop.Ended? && (n.pipe.loop.flow.BusDown? || n.pipe.loop.flow.NoFeed?) ==> n.sys.st.outbox == []
  }

  ghost predicate Inv(n: Node) {
    && S.Inv(n.sys) && W.PipeInv(n.pipe)
    && n.sys.handed == n.pipe.handed
    && (n.pipe.loop.Unborn? <==> !n.sys.live)
    && Flushed(n)
  }

  lemma {:induction false} KeepOpen(n: Node, list: seq<AgentMsg>, feed: bool)
    requires Inv(n) && Can(n, Open(list, feed))
    ensures Inv(Do(n, Open(list, feed)))
  {
    S.KeepInv(n.sys, S.Open(list));
    W.KeepPipe(n.pipe, W.Connect(Snapshot(list), feed));
  }

  lemma {:induction false} KeepHand(n: Node)
    requires Inv(n) && Can(n, Hand)
    ensures Inv(Do(n, Hand))
  {
    S.KeepInv(n.sys, S.Hand);
    W.KeepPipe(n.pipe, W.Take(n.sys.st.outbox[0]));
  }

  lemma {:induction false} KeepNode(n: Node, step: NodeStep)
    requires Inv(n) && Can(n, step)
    ensures Inv(Do(n, step))
  {
    match step {
      case Env(e) => S.KeepInv(n.sys, e);
      case Loop(a) => S.KeepInv(n.sys, a);
      case Open(list, feed) => KeepOpen(n, list, feed);
      case Hand => KeepHand(n);
      case Path(m) => W.KeepPipe(n.pipe, m);
    }
  }

  lemma {:induction false} InvAlways(r: NodeRun, k: nat)
    requires IsRun(r) && k < |r.nodes|
    ensures Inv(r.nodes[k])
  {
    if k == 0 {
      R.InvAlways(R.Run([r.nodes[0].sys], []), 0);
    } else {
      InvAlways(r, k - 1);
      KeepAt(r, k - 1);
    }
  }

  lemma {:induction false} KeepAt(r: NodeRun, i: nat)
    requires IsRun(r) && i < |r.steps| && Inv(r.nodes[i])
    ensures Inv(r.nodes[i + 1])
  {
    assert StepAt(r, i);
    KeepNode(r.nodes[i], r.steps[i]);
  }

  /** The rows a client has built from what it read. */
  function ClientRows(n: Node): Rows {
    Replay(map[], W.Items(n.pipe.seen))
  }

  /** Stream order: what the client's polls yielded is orderly, and its messages are a prefix
      of the decided ones. */
  lemma {:induction false} StreamOrder(r: NodeRun, k: nat)
    requires IsRun(r) && k < |r.nodes|
    ensures W.Orderly(r.nodes[k].pipe.seen)
    ensures W.Items(r.nodes[k].pipe.seen) <= S.Decided(r.nodes[k].sys)
  {
    InvAlways(r, k);
    W.ReadsInOrder(r.nodes[k].pipe);
  }

  /** Nothing decided is still on its way to the client. */
  ghost predicate CaughtUp(n: Node) {
    n.sys.st.outbox == [] && n.pipe.inHand.None? && n.pipe.stream.rx == []
  }

  /** A client that read everything of a stream at rest holds the backend's inventory. */
  lemma {:induction false} ClientConverges(r: NodeRun, k: nat)
    requires IsRun(r) && k < |r.nodes| && R.Quiescent(r.nodes[k].sys) && CaughtUp(r.nodes[k])
    ensures ClientRows(r.nodes[k]) == r.nodes[k].sys.inv
  {
    var n := r.nodes[k];
    InvAlways(r, k);
    assert W.Items(n.pipe.seen) == S.Decided(n.sys);
    R.RestHoldsInventory(n.sys);
  }

  // ----- the fast path up to the client ----------------------------------------------

  lemma {:induction false} DecidesOn(n: Node, step: NodeStep)
    requires Inv(n) && Can(n, step)
    ensures S.Decided(n.sys) <= S.Decided(Do(n, step).sys)
  {
    match step {
      case Loop(a) => R.SaysExactly(n.sys, a);
      case Hand => R.SaysExactly(n.sys, S.Hand);
      case _ =>
    }
  }

  lemma {:induction false} DecidedGrows(r: NodeRun, i: nat, k: nat)
    requires IsRun(r) && i <= k < |r.nodes|
    ensures S.Decided(r.nodes[i].sys) <= S.Decided(r.nodes[k].sys)
    decreases k
  {
    if i < k {
      DecidedGrows(r, i, k - 1);
      DecidesAt(r, k - 1);
    }
  }

  lemma {:induction false} DecidesAt(r: NodeRun, i: nat)
    requires IsRun(r) && i < |r.steps|
    ensures S.Decided(r.nodes[i].sys) <= S.Decided(r.nodes[i + 1].sys)
  {
    InvAlways(r, i);
    assert StepAt(r, i);
    DecidesOn(r.nodes[i], r.steps[i]);
  }

  /** The fast path: a status event that agrees with the held row puts that row, with the
      event's status, right behind everything decided before. So it is what the client reads
      next after those messages, whatever happens in between. */
  lemma {:induction false} StatusReachesClient(r: NodeRun, i: nat, k: nat, ev: StatusEvent)
    requires IsRun(r) && i < k < |r.nodes| && r.steps[i] == Loop(S.Bus)
    requires var s := r.nodes[i].sys; s.queue != [] && s.queue[0] == Status(ev) && ApplyStatus(s.st.held, ev).Some?
    ensures var s, n := r.nodes[i].sys, r.nodes[k];
      var at, row := |S.Decided(s)|, ApplyStatus(s.st.held, ev).value;
      && row.pane == ev.pane && row.status == ev.status
      && at < |S.Decided(n.sys)| && S.Decided(n.sys)[at] == Changed(row)
      && (at < |W.Items(n.pipe.seen)| ==> W.Items(n.pipe.seen)[at] == Changed(row))
    // its pane is owed a re-read all the same
    ensures R.PaneOwed(r.nodes[i + 1].sys, ev.pane)
  {
    var s := r.nodes[i].sys;
    InvAlways(r, i);
    assert StepAt(r, i);
    R.SaysExactly(s, S.Bus);
    assert R.Says(s, S.Bus) == [Changed(ApplyStatus(s.st.held, ev).value)];
    DecidedGrows(r, i + 1, k);
    StreamOrder(r, k);
  }
}
