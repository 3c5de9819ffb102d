/** How a `WatchAgents` stream ends, as its client sees it: the fatal status and the end of the
    channel race the client's polls. */
module WatchEnding {
  import opened Prelude
  import opened AgentRows
  import opened WatchStates
  import opened WatchEndToEnd   // with its abbreviations S, R and W

  // ----- what one step can do --------------------------------------------------------

  /** The step that ends the loop for this reason. */
  predicate EndsFor(step: NodeStep, flow: W.Flow) {
    match flow
    case Gone => step == Path(W.Notice)
    case Revoked => step == Path(W.Revoke)
    case BusDown => step == Path(W.CloseBus)
    case NoFeed => step.Open? && !step.feed
  }

  ghost predicate EndMoves(p: W.Pipe, step: NodeStep, q: W.Pipe) {
    && (p.loop.Ended? ==> q.loop == p.loop)
    && (p.stream.lane.Fired? ==> q.stream.lane.Fired?)
    && (q.stream.lane.Fired? && !p.stream.lane.Fired? ==> step == Path(W.Fire))
    && (q.loop != p.loop && q.loop.Ended? ==> EndsFor(step, q.loop.flow))
    && (!p.stream.txOpen ==> !q.stream.txOpen)
    && (p.stream.txOpen && !q.stream.txOpen ==> step == Path(W.DropTx))
  }

  ghost predicate PollMoves(p: W.Pipe, step: NodeStep, q: W.Pipe) {
    && p.seen <= q.seen
    && (p.passed ==> step != Path(W.Look))
    && (q.passed && !p.passed ==> step == Path(W.Look) && !p.stream.lane.Fired?)
    && (!p.passed && step != Path(W.Look) ==> !q.passed && q.seen == p.seen)
    && (W.End in q.seen && W.End !in p.seen && W.Failed !in q.seen ==>
          step == Path(W.Receive) && p.passed && !p.stream.txOpen && q.seen == p.seen + [W.End])
    && (step == Path(W.Look) && p.stream.lane.Fired? ==> W.Failed in q.seen)
  }

  lemma {:induction false} StepEnds(n: Node, step: NodeStep)
    requires Inv(n) && Can(n, step)
    ensures EndMoves(n.pipe, step, Do(n, step).pipe)
  {
    if step.Path? { W.PipeEnds(n.pipe, step.move); }
  }

  lemma {:induction false} StepSees(n: Node, step: NodeStep)
    requires Inv(n) && Can(n, step)
    ensures PollMoves(n.pipe, step, Do(n, step).pipe)
  {
    if step == Path(W.Look) {
      W.LookSees(n.pipe);
    } else if step == Path(W.Receive) {
      W.ReceiveSees(n.pipe);
    }
  }

  lemma {:induction false} StepMoves(r: NodeRun, i: nat)
    requires IsRun(r) && i < |r.steps|
    ensures EndMoves(r.nodes[i].pipe, r.steps[i], r.nodes[i + 1].pipe)
    ensures PollMoves(r.nodes[i].pipe, r.steps[i], r.nodes[i + 1].pipe)
  {
    InvAlways(r, i);
    assert StepAt(r, i);
    StepEnds(r.nodes[i], r.steps[i]);
    StepSees(r.nodes[i], r.steps[i]);
  }

  // ----- looking back over a run -----------------------------------------------------

  lemma {:induction false} EndStays(r: NodeRun, i: nat, j: nat)
    requires IsRun(r) && i <= j < |r.nodes|
    ensures var p, q := r.nodes[i].pipe, r.nodes[j].pipe;
      && (p.loop.Ended? ==> q.loop == p.loop)
      && (p.stream.lane.Fired? ==> q.stream.lane.Fired?)
      && (!p.stream.txOpen ==> !q.stream.txOpen)
      && p.seen <= q.seen
    decreases j
  {
    if i < j {
      EndStays(r, i, j - 1);
      StepMoves(r, j - 1);
    }
  }

  /** A loop that ended did so for its reason, and the client is told an error only when a token
      re-check failed. */
  lemma {:induction false} EndedForCause(r: NodeRun, k: nat) returns (i: nat)
    requires IsRun(r) && k < |r.nodes| && r.nodes[k].pipe.loop.Ended?
    ensures i < k && EndsFor(r.steps[i], r.nodes[k].pipe.loop.flow)
    ensures W.Failed in r.nodes[k].pipe.seen ==> r.steps[i] == Path(W.Revoke)
    decreases k
  {
    InvAlways(r, k);
    assert k > 0;
    StepMoves(r, k - 1);
    i := k - 1;
    if r.nodes[k - 1].pipe.loop.Ended? { i := EndedForCause(r, k - 1); }
  }

  lemma {:induction false} FindFire(r: NodeRun, i: nat, j: nat) returns (f: nat)
    requires IsRun(r) && i <= j < |r.nodes|
    requires !r.nodes[i].pipe.stream.lane.Fired? && r.nodes[j].pipe.stream.lane.Fired?
    ensures i <= f < j && r.steps[f] == Path(W.Fire)
    decreases j
  {
    StepMoves(r, j - 1);
    f := j - 1;
    if r.nodes[j - 1].pipe.stream.lane.Fired? { f := FindFire(r, i, j - 1); }
  }

  lemma {:induction false} FindDropTx(r: NodeRun, i: nat, j: nat) returns (d: nat)
    requires IsRun(r) && i <= j < |r.nodes|
    requires r.nodes[i].pipe.stream.txOpen && !r.nodes[j].pipe.stream.txOpen
    ensures i <= d < j && r.steps[d] == Path(W.DropTx)
    decreases j
  {
    StepMoves(r, j - 1);
    d := j - 1;
    if !r.nodes[j - 1].pipe.stream.txOpen { d := FindDropTx(r, i, j - 1); }
  }

  ghost predicate NoLook(r: NodeRun, i: nat, j: nat)
    requires IsRun(r) && j <= |r.steps|
  {
    forall m :: i <= m < j ==> r.steps[m] != Path(W.Look)
  }

  /** Where the poll under way at `c` looked at the lane. */
  lemma {:induction false} FindLook(r: NodeRun, c: nat) returns (l: nat)
    requires IsRun(r) && c < |r.nodes| && r.nodes[c].pipe.passed
    ensures l < c && r.steps[l] == Path(W.Look) && NoLook(r, l + 1, c)
    ensures !r.nodes[l].pipe.stream.lane.Fired?
    decreases c
  {
    StepMoves(r, c - 1);
    l := c - 1;
    if r.nodes[c - 1].pipe.passed { l := FindLook(r, c - 1); }
  }

  /** Where the client was told the end. */
  lemma {:induction false} FindEnd(r: NodeRun, k: nat) returns (c: nat)
    requires IsRun(r) && k < |r.nodes| && W.End in r.nodes[k].pipe.seen && W.Failed !in r.nodes[k].pipe.seen
    ensures c < k && r.steps[c] == Path(W.Receive) && r.nodes[c].pipe.passed && !r.nodes[c].pipe.stream.txOpen
    ensures r.nodes[c + 1].pipe.seen == r.nodes[c].pipe.seen + [W.End]
    decreases k
  {
    StepMoves(r, k - 1);
    c := k - 1;
    if W.End in r.nodes[k - 1].pipe.seen { c := FindEnd(r, k - 1); }
  }

  /** One poll looked at the lane at `l`, before the status was sent at `f`, and received the
      end at `c`, after the channel was dropped at `d`; no other poll began until `k`. */
  ghost predicate Straddles(r: NodeRun, l: nat, f: nat, d: nat, c: nat, k: nat)
    requires IsRun(r)
  {
    && l < f < d < c < k < |r.nodes|
    && r.steps[l] == Path(W.Look) && r.steps[f] == Path(W.Fire)
    && r.steps[d] == Path(W.DropTx) && r.steps[c] == Path(W.Receive)
    && r.nodes[c + 1].pipe.seen == r.nodes[c].pipe.seen + [W.End]
    && NoLook(r, l + 1, k)
  }

  ghost predicate EndStraddles(r: NodeRun, k: nat)
    requires IsRun(r)
  {
    exists l, f, d, c :: Straddles(r, l, f, d, c, k)
  }

  ghost predicate EndsCleanly(n: Node) {
    W.End in n.pipe.seen && W.Failed !in n.pipe.seen
  }

  // ----- clean ends ------------------------------------------------------------------

  /** In a stream that ends up revoked, a closed channel means the status was sent. */
  lemma {:induction false} ClosedMeansFired(r: NodeRun, i: nat, k: nat)
    requires IsRun(r) && i <= k < |r.nodes| && r.nodes[k].pipe.loop == W.Ended(W.Revoked)
    ensures !r.nodes[i].pipe.stream.txOpen ==> r.nodes[i].pipe.stream.lane.Fired?
    ensures !r.nodes[i].pipe.stream.lane.Dropped?
  {
    InvAlways(r, i);
    EndStays(r, i, k);
  }

  /** A poll begun once the status is sent fails. */
  lemma {:induction false} LooksFail(r: NodeRun, i: nat, k: nat)
    requires IsRun(r) && i <= k < |r.nodes| && r.nodes[i].pipe.stream.lane.Fired?
    ensures NoLook(r, i, k) || W.Failed in r.nodes[k].pipe.seen
  {
    if !NoLook(r, i, k) {
      var m :| i <= m < k && r.steps[m] == Path(W.Look);
      EndStays(r, i, m);
      StepMoves(r, m);
      EndStays(r, m + 1, k);
    }
  }

  lemma {:induction false} CleanEndStraddles(r: NodeRun, k: nat)
    requires IsRun(r) && k < |r.nodes| && r.nodes[k].pipe.loop == W.Ended(W.Revoked) && EndsCleanly(r.nodes[k])
    ensures EndStraddles(r, k)
  {
    var c := FindEnd(r, k);
    var l := FindLook(r, c);
    ClosedMeansFired(r, l, k);
    var d := FindDropTx(r, l, c);
    assert StepAt(r, d);
    ClosedMeansFired(r, d, k);
    var f := FindFire(r, l, d);
    ClosedMeansFired(r, c, k);
    LooksFail(r, c, k);
    assert Straddles(r, l, f, d, c, k);
  }

  lemma {:induction false} NoLookNoNews(r: NodeRun, i: nat, j: nat)
    requires IsRun(r) && i <= j < |r.nodes| && !r.nodes[i].pipe.passed && NoLook(r, i, j)
    ensures !r.nodes[j].pipe.passed && r.nodes[j].pipe.seen == r.nodes[i].pipe.seen
    decreases j
  {
    if i < j {
      NoLookNoNews(r, i, j - 1);
      StepMoves(r, j - 1);
    }
  }

  lemma {:induction false} StraddlingEndsCleanly(r: NodeRun, l: nat, f: nat, d: nat, c: nat, k: nat)
    requires IsRun(r) && Straddles(r, l, f, d, c, k)
    ensures EndsCleanly(r.nodes[k])
  {
    assert StepAt(r, c);
    InvAlways(r, c);
    NoLookNoNews(r, c + 1, k);
  }

  /** A revoked stream ends without the error exactly when a poll straddled its end: it looked
      before the status was sent and received after the channel was dropped. */
  lemma {:induction false} RevokedEndsCleanlyIff(r: NodeRun, k: nat)
    requires IsRun(r) && k < |r.nodes| && r.nodes[k].pipe.loop == W.Ended(W.Revoked)
    ensures EndsCleanly(r.nodes[k]) <==> EndStraddles(r, k)
  {
    if EndsCleanly(r.nodes[k]) { CleanEndStraddles(r, k); }
    if EndStraddles(r, k) {
      var l, f, d, c :| Straddles(r, l, f, d, c, k);
      StraddlingEndsCleanly(r, l, f, d, c, k);
    }
  }

  /** What the loop decided and never put into the channel. */
  function Undelivered(n: Node): seq<AgentEvent> {
    (if n.pipe.inHand.Some? then [n.pipe.inHand.value] else []) + n.sys.st.outbox
  }

  /** A stream that ended cleanly while its client stayed has told it everything, so that the
      client holds exactly the stream's rows, unless it was revoked and a poll straddled its
      end; then just what the loop still had in its hand and outbox is missing. */
  lemma {:induction false} CleanEndIsComplete(r: NodeRun, k: nat)
    requires IsRun(r) && k < |r.nodes| && EndsCleanly(r.nodes[k])
    requires r.nodes[k].pipe.loop != W.Ended(W.Gone)
    ensures var n := r.nodes[k];
      && S.Decided(n.sys) == W.Items(n.pipe.seen) + Undelivered(n)
      && (if n.pipe.loop == W.Ended(W.Revoked) then EndStraddles(r, k)
          else Undelivered(n) == [] && ClientRows(n) == n.sys.st.held)
  {
    var n := r.nodes[k];
    InvAlways(r, k);
    W.DrainsFully(n.pipe);
    Regroup(n.pipe.sent, if n.pipe.inHand.Some? then [n.pipe.inHand.value] else [], n.sys.st.outbox);
    if n.pipe.loop == W.Ended(W.Revoked) { RevokedEndsCleanlyIff(r, k); }
  }

  lemma {:induction false} FatalStep(n: Node, step: NodeStep)
    requires Inv(n) && Can(n, step) && n.pipe.stream.lane.Fired?
    ensures var p, q := n.pipe, Do(n, step).pipe;
      && q.stream.lane.Fired? && (q.passed ==> p.passed)
      && W.Items(p.seen) <= W.Items(q.seen)
      && |W.Items(q.seen)| + (if q.passed then 1 else 0) <= |W.Items(p.seen)| + (if p.passed then 1 else 0)
  {
    if step.Path? { W.FatalStays(n.pipe, step.move); }
  }

  /** Fatal overtaking: after the fatal status is sent no message is ever read again, but for
      at most one by a poll that had looked at the lane before. */
  lemma {:induction false} FatalIsFinal(r: NodeRun, i: nat, j: nat)
    requires IsRun(r) && i <= j < |r.nodes| && r.nodes[i].pipe.stream.lane.Fired?
    ensures var p, q := r.nodes[i].pipe, r.nodes[j].pipe;
      && q.stream.lane.Fired? && (q.passed ==> p.passed)
      && W.Items(p.seen) <= W.Items(q.seen)
      && |W.Items(q.seen)| + (if q.passed then 1 else 0) <= |W.Items(p.seen)| + (if p.passed then 1 else 0)
    decreases j
  {
    if i < j {
      FatalIsFinal(r, i, j - 1);
      InvAlways(r, j - 1);
      assert StepAt(r, j - 1);
      FatalStep(r.nodes[j - 1], r.steps[j - 1]);
    }
  }

  // ----- the straddling poll ---------------------------------------------------------

  /** `longer` is `r` and one more step. */
  ghost predicate Continues(r: NodeRun, step: NodeStep, longer: NodeRun)
    requires IsRun(r)
  {
    IsRun(longer) && longer.steps == r.steps + [step] && longer.nodes == r.nodes + [Last(longer.nodes)]
  }

  lemma {:induction false} Extend(r: NodeRun, step: NodeStep) returns (longer: NodeRun)
    requires IsRun(r) && Can(Last(r.nodes), step)
    ensures Continues(r, step, longer) && Last(longer.nodes) == Do(Last(r.nodes), step)
  {
    longer := NodeRun(r.nodes + [Do(Last(r.nodes), step)], r.steps + [step]);
    forall i | 0 <= i < |longer.steps| ensures StepAt(longer, i) {
      if i < |r.steps| { assert StepAt(r, i); }
    }
  }

  /** The loop runs and the client is between two polls. */
  predicate BetweenPolls(n: Node) {
    n.pipe.loop.Running? && n.pipe.client && !n.pipe.passed
  }

  /** The client has read all that was sent; the loop holds a message. */
  predicate Holding(n: Node) {
    BetweenPolls(n) && n.pipe.stream.rx == [] && n.pipe.inHand.Some?
  }

  lemma {:induction false} Deliver(r: NodeRun, m: W.PipeStep, q: W.Pipe) returns (longer: NodeRun)
    requires IsRun(r) && Can(Last(r.nodes), Path(m)) && q == W.DoPipe(Last(r.nodes).pipe, m)
    ensures Continues(r, Path(m), longer) && Last(longer.nodes) == Last(r.nodes).(pipe := q)
  {
    longer := Extend(r, Path(m));
  }

  /** A poll passes the lane, and only then the stream is revoked and the status sent. */
  lemma {:induction false} FireDuringPoll(r: NodeRun) returns (longer: NodeRun)
    requires IsRun(r) && BetweenPolls(Last(r.nodes))
    ensures IsRun(longer) && longer.steps == r.steps + [Path(W.Look), Path(W.Revoke), Path(W.Fire)]
    ensures var n, p := Last(r.nodes), Last(r.nodes).pipe;
      Last(longer.nodes) == n.(pipe := p.(passed := true, loop := W.Ended(W.Revoked),
                                          stream := W.StreamView(p.stream.rx, true, W.Fired, true, false)))
  {
    var p := Last(r.nodes).pipe;
    InvAlways(r, |r.nodes| - 1);
    assert p.stream == W.StreamView(p.stream.rx, true, W.Armed, true, false);
    var p1 := p.(passed := true);
    var r1 := Deliver(r, W.Look, p1);
    var p2 := p1.(loop := W.Ended(W.Revoked));
    var r2 := Deliver(r1, W.Revoke, p2);
    longer := Deliver(r2, W.Fire, p2.(stream := W.StreamView(p.stream.rx, true, W.Fired, true, false)));
  }

  /** From every such state of every run with a message queued, a poll can read it after the
      fatal status was sent. */
  lemma {:induction false} LateMessageCanBeRead(r: NodeRun) returns (fired: NodeRun, longer: NodeRun)
    requires IsRun(r) && BetweenPolls(Last(r.nodes)) && Last(r.nodes).pipe.stream.rx != []
    ensures IsRun(fired) && fired.steps == r.steps + [Path(W.Look), Path(W.Revoke), Path(W.Fire)]
    ensures Last(fired.nodes).pipe.stream.lane.Fired? && Continues(fired, Path(W.Receive), longer)
    ensures var p := Last(r.nodes).pipe;
      Last(fired.nodes).pipe.seen == p.seen && Last(longer.nodes).pipe.seen == p.seen + [W.Item(p.stream.rx[0])]
  {
    fired := FireDuringPoll(r);
    var p := Last(fired.nodes).pipe;
    longer := Deliver(fired, W.Receive, W.DoPipe(p, W.Receive));
  }

  /** From every such state of every run the poll can straddle the end: the client then sees a
      clean end of a revoked stream and misses the message; polled again, the stream fails. */
  lemma {:induction false} HeldMessageCanBeLost(r: NodeRun) returns (longer: NodeRun, after: NodeRun)
    requires IsRun(r) && Holding(Last(r.nodes))
    ensures IsRun(longer) && longer.steps == r.steps +
      [Path(W.Look), Path(W.Revoke), Path(W.Fire), Path(W.DropTx), Path(W.Receive)]
    ensures var n, m := Last(r.nodes), Last(longer.nodes);
      && m.pipe.loop == W.Ended(W.Revoked) && m.pipe.seen == n.pipe.seen + [W.End] && EndsCleanly(m)
      && |W.Items(m.pipe.seen)| < |S.Decided(m.sys)|
      && Continues(longer, Path(W.Look), after) && Last(after.nodes).pipe.seen == m.pipe.seen + [W.Failed]
  {
    var r3 := FireDuringPoll(r);
    var p := Last(r3.nodes).pipe.(stream := W.StreamView([], false, W.Fired, true, false));
    var r4 := Deliver(r3, W.DropTx, p);
    var q := p.(passed := false, seen := p.seen + [W.End]);
    longer := Deliver(r4, W.Receive, q);
    EndIsShort(longer);
    var last := q.(seen := q.seen + [W.Failed], stream := W.StreamView([], false, W.Fired, false, true));
    after := Deliver(longer, W.Look, last);
  }

  lemma {:induction false} EndIsShort(r: NodeRun)
    requires IsRun(r)
    ensures var n := Last(r.nodes);
      && (W.Failed in n.pipe.seen ==> n.pipe.stream.done)
      && (n.pipe.inHand.Some? ==> |W.Items(n.pipe.seen)| < |S.Decided(n.sys)|)
  {
    InvAlways(r, |r.nodes| - 1);
    W.ReadsInOrder(Last(r.nodes).pipe);
  }

  /** A stream over no agents that has sent its snapshot and nothing else. */
  ghost predicate OpenedEmpty(n: Node) {
    && n.sys == S.Initial(map[], 0).(live := true, handed := [Snapshot([])],
                                     st := View(map[], {}, false, 0, None, false, []))
    && n.pipe.loop.Running? && n.pipe.client && !n.pipe.passed && n.pipe.inHand.None?
  }

  lemma {:induction false} OpenEmpty() returns (r: NodeRun)
    ensures IsRun(r) && OpenedEmpty(Last(r.nodes))
    ensures Last(r.nodes).pipe.stream == W.StreamView([Snapshot([])], true, W.Armed, true, false)
  {
    var n := Begin(map[], 0);
    var r0 := NodeRun([n], []);
    var r1 := Extend(r0, Env(S.Capture));
    assert S.Lists([], map[]);
    r := Extend(r1, Open([], true));
  }

  lemma {:induction false} ReadFirst(r: NodeRun) returns (longer: NodeRun)
    requires IsRun(r) && OpenedEmpty(Last(r.nodes))
    requires Last(r.nodes).pipe.stream == W.StreamView([Snapshot([])], true, W.Armed, true, false)
    ensures IsRun(longer) && OpenedEmpty(Last(longer.nodes)) && Last(longer.nodes).pipe.stream.rx == []
  {
    var p := Last(r.nodes).pipe;
    var q := p.(passed := true);
    var r1 := Deliver(r, W.Look, q);
    longer := Deliver(r1, W.Receive, W.DoPipe(q, W.Receive));
  }

  /** A resync has the loop start a second read, for a snapshot. */
  lemma {:induction false} Resync(r: NodeRun) returns (longer: NodeRun)
    requires IsRun(r) && OpenedEmpty(Last(r.nodes))
    ensures IsRun(longer) && Last(longer.nodes).pipe == Last(r.nodes).pipe
    ensures Last(longer.nodes).sys == Last(r.nodes).sys.(starts := [0],
      st := Last(r.nodes).sys.st.(reading := Some(Flight({}, true, {}))))
  {
    var r1 := Extend(r, Env(S.Publish(Resynced)));
    var r2 := Extend(r1, Loop(S.Bus));
    longer := Extend(r2, Loop(S.Start));
  }

  lemma {:induction false} Resnapshot(r: NodeRun) returns (longer: NodeRun)
    requires IsRun(r) && OpenedEmpty(Last(r.nodes))
    ensures IsRun(longer) && Last(longer.nodes).pipe == Last(r.nodes).pipe
    ensures Last(longer.nodes).sys.st.outbox == [Snapshot([])] && Last(longer.nodes).sys.live
  {
    var r1 := Resync(r);
    var r2 := Extend(r1, Env(S.Capture));
    assert S.Lists([], map[]);
    longer := Extend(r2, Loop(S.Finish(Some([]))));
  }

  /** Such states are reached. */
  lemma {:induction false} HoldingIsReached() returns (r: NodeRun)
    ensures IsRun(r) && Holding(Last(r.nodes))
  {
    r := OpenEmpty();
    r := ReadFirst(r);
    r := Resnapshot(r);
    r := Extend(r, Hand);
  }
}
