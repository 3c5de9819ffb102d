# muxr-core: verified models

Dafny models of the parts of muxr where state, time and concurrency meet, with proofs of what
they guarantee over every input and every run. `dafny verify dfyconfig.toml` checks the project.
Every lemma is marked `{:induction false}`: each induction is written out in its body.

| file | models |
|---|---|
| `AgentRows.dfy`, `WatchState.dfy` | the rows a `WatchAgents` stream mirrors, the diff `reconcile`, the state a stream keeps |
| `WatchSystem.dfy`, `WatchRuns.dfy`, `WatchRecovery.dfy` | the replication protocol as a transition system, its invariant, what holds over all runs, convergence under every fair schedule |
| `WatchMarks.dfy` | why a stream owes, reads and says what it does |
| `WatchStream.dfy`, `WatchEndToEnd.dfy` | the delivery path with its fatal lane, and both together up to the client |
| `WatchEnding.dfy`, `WatchLiveness.dfy` | how a stream ends, raced by the client's polls; that the client gets the inventory in the end |
| `TokenBucket.dfy`, `NotifyLimiter.dfy`, `NotifyLimiterRuns.dfy`, `ServerLimiter.dfy` | the push relay's and the daemon's rate limiters |
| `NotifyStore.dfy`, `DailyCap.dfy` | the registration table and the daily cap under overlapping requests |
| `ControlRouting.dfy` | which relay a control command reaches |
| `LayoutOverlay.dfy` | a connection's own tab and focus over the shared layout |
| `InputPump.dfy`, `InputEvents.dfy` | the TUI input pump, and what it does to each kind of event |
| `TextCodec.dfy`, `PairingUri.dfy` | the pairing URI and its encodings |
| `Prelude.dfy`, `Spacing.dfy` | shared vocabulary, counting spaced instants |

## The WatchAgents protocol

A state holds the backend's inventory, the panes changed but not announced yet, the bus queue,
the stream's `View`, what the read in flight captured, and the log of decided messages. Steps are
the environment's (a row changes, an event is published, time passes, the read observes the
inventory, the bus drops its oldest events) and the loop's (a bus event, a re-read starting or
ending, a message leaving the outbox), in any interleaving. The environment is assumed to do only
this:

- every row change is followed, at some later point, by a status event or closure for that pane or
  by a resync marker (changing and announcing are separate steps; an event may also be published
  for no reason);
- a closure is published only while the pane has no row;
- a lag drops any number of the oldest queued events and tells the receiver so;
- a read observes the inventory at one instant between its start and its end, or fails at any time;
- one `list_agents` answer has at most one row per pane (the order is arbitrary).

`DiffExactIff` shows what the last assumption is worth: with duplicate panes the diff is exact if
and only if no pane's last listed row is the held one while an earlier one is not.

The first snapshot is modelled as a read that is out when the stream subscribes, which is why
nothing published meanwhile is lost.

The loop and the client's polls run in different tasks. A poll is two steps, a look at the fatal
lane and a receive from the channel, and anything the loop does can fall in between. A client that
goes away does so between two polls.

## Findings about the code

- `muxrd/src/grpc/agent_ops.rs:362-374` polls the fatal lane and then the channel, while the loop of
  another task may send the status and drop the channel in between (`agent_ops.rs:648-652`). A
  revoked stream then ends for its client without UNAUTHENTICATED, and the message in the loop's
  hand is never sent: from every reachable state where the loop holds a message and the client has
  read the rest (`WatchEnding.HeldMessageCanBeLost`, and `HoldingIsReached` that there is one). This
  happens if and only if the poll that yields the end looked before the status was sent and
  received after the channel was dropped (`WatchEnding.RevokedEndsCleanlyIff`). For the same reason
  at most one queued message can still be read after the status was sent
  (`WatchEnding.FatalIsFinal`, `LateMessageCanBeRead`). Polled once more, the stream does fail.
- `muxrd/src/ratelimit.rs:145-157` and `muxr-notify/src/ratelimit.rs:63-69` read the clock before
  they take the lock, so concurrent requests can be answered out of order, and the stamp then goes
  back: two admissions at one instant with a burst of one (`ServerLimiter.OutOfOrderBreaksRate`).
  What holds for any order is `StretchBound`: the refill is that of all the readings' climbs. They
  add up to no more than the time passed if and only if the readings are in order
  (`TokenBuckets.ClimbInOrder`), which gives `RateBound`.
- `muxrd/src/ratelimit.rs:50-53` says a large map is pruned to bound memory. A stored bucket has
  just answered a request, so it never has `burst` tokens and the sweep removes nothing
  (`ServerLimiter.SweepRemovesNothing`). The map stays within the limit if and only if no more
  addresses than that called (`WithinLimitIff`), and for every n some run tracks n of them
  (`MemoryIsUnbounded`).
- `muxr-notify/src/handlers.rs:203` compares only the counter of the current day, so a cap of zero
  still lets the first request of a day through. Within a day, `cap + k - 1` holds for all runs
  with at most k overlapping requests if and only if the cap is positive
  (`DailyCap.CapHoldsWithinDay`); `Ceiling(cap)`, one when the cap is zero, makes the bound exact.
- `muxr-notify/src/handlers.rs:202-221` records a send under the day it was decided, and
  `muxr-notify/src/store.rs:135-137` starts the counter over whenever that day is not the stored
  one. A send that straddles midnight and is recorded after today's first one therefore takes
  today's counter away (`DailyCap.Straddle`). Over all runs `cap + k - 1` holds if and only if the
  cap is positive and requests for a handle never overlap (`DailyCap.CapHoldsIff`); each such
  record costs at most one more quota (`DailyCap.CapUnderOverlap`).
- `muxrctl/src/tui/runner.rs:223-238` returns early on an error of `poll` or `read` at lines
  231-233 and drops what the call had already read: a key read before the failure is neither
  routed nor pending (`InputPumps.FailingFillLosesKey`). Nothing is lost if and only if no failing
  fill had read a kept non-move (`InputPumps.PumpIsFaithfulIff`), which all calls respect if and
  only if no failing batch of the source holds one (`SafeSourceIff`). `runner.rs:126` passes the error
  on and ends the loop, so in the program the loss is confined to the last batch before it exits.

## Model

| member | source | states |
|---|---|---|
| `AgentRows.ApplyStatus` | muxrd/src/grpc/agent_ops.rs:712-727 | the fast path applies exactly when kind, tab and space are carried and agree; status moves to the event's, title and name move when carried and stay otherwise, no other field moves |
| `AgentRows.SortPanes` | muxrd/src/grpc/agent_ops.rs:750-756 | departed panes come out in ascending order, each once |
| `AgentRows.Reconcile` | muxrd/src/grpc/agent_ops.rs:737-764 | the in-place diff computes the next rows and the deltas of the specification |
| `AgentRows.DiffExactIff` | muxrd/src/grpc/agent_ops.rs:737-764 | for any list, replaying the deltas on the old rows gives the new rows if and only if no duplicated pane echoes the held row |
| `AgentRows.DiffExact` | muxrd/src/grpc/agent_ops.rs:729-764 | with distinct panes the replayed client holds the fresh list outside `defer` and the old rows inside it |
| `AgentRows.DuplicatePanesCanEcho` | muxrd/src/grpc/agent_ops.rs:744-749 | a list that repeats a pane can leave the client on a row the stream does not hold |
| `AgentRows.DeltasShape` | muxrd/src/grpc/agent_ops.rs:729-764 | each pane is mentioned at most once, only outside `defer` and only if its row differs; removals come last, ascending |
| `AgentRows.DeltasInOrder` | muxrd/src/grpc/agent_ops.rs:729-749 | the changed rows are sent in the fresh list's order |
| `AgentRows.ReplayConcat` | muxrd/src/grpc/agent_ops.rs:766-782 | reading two batches of messages is reading the first, then the second |
| `WatchStates.WatchState.constructor` | muxrd/src/grpc/agent_ops.rs:455-465 | a fresh stream holds the snapshot's rows and owes nothing |
| `WatchStates.WatchState.OnBus` | muxrd/src/grpc/agent_ops.rs:526-561 | the whole state after one bus event, for every kind of event; false exactly when the bus closed |
| `WatchStates.WatchState.StartRead` | muxrd/src/grpc/agent_ops.rs:474-482 | a re-read takes every mark with it and stamps the clock (`WatchMarks.CarryMoves`: and no other mark) |
| `WatchStates.WatchState.FinishRead` | muxrd/src/grpc/agent_ops.rs:485-523 | a success drops closed panes and snapshots or diffs; a failure gives every mark back |
| `WatchStates.Retain` | muxrd/src/grpc/agent_ops.rs:496 | the answer without the panes closed while it was out |
| `WatchStates.BuildHeld` | muxrd/src/grpc/agent_ops.rs:701-704 | the rows held after a list was sent |
| `WatchSystem.BusReplica` | muxrd/src/grpc/agent_ops.rs:526-561 | a bus event moves the held rows exactly as its message moves the client's |
| `WatchSystem.ReadReplica` | muxrd/src/grpc/agent_ops.rs:485-523 | a finished read moves the held rows exactly as its messages move the client's |
| `WatchSystem.ReadAt` | muxrd/src/grpc/agent_ops.rs:496-507 | pane by pane, what a successful read leaves held: deferred rows kept, closed panes gone, the rest as answered |
| `WatchSystem.BusAt` | muxrd/src/grpc/agent_ops.rs:526-561 | a bus event leaves every pane right, still owed a read, or still announced in the queue |
| `WatchSystem.KeepInv` | muxrd/src/grpc/agent_ops.rs:441-561 | every step of the protocol and of its environment keeps the invariant |
| `WatchRuns.Convergence` | muxrd/src/grpc/agent_ops.rs:474-561 | in every reachable state with nothing announced or queued, nothing owed and no read out, the held rows are the backend's inventory |
| `WatchRuns.ReplicaAgreement` | muxrd/src/grpc/agent_ops.rs:485-561 | at every reachable state, replaying all decided messages from an empty client gives the held rows |
| `WatchRuns.NoLostMark` | muxrd/src/grpc/agent_ops.rs:474-523 | a status event stays owed until a successful read started after it, or the pane's closure, however many reads fail |
| `WatchRuns.NoLostResnapshot` | muxrd/src/grpc/agent_ops.rs:474-523 | a lag or resync stays owed until a successful read started after it |
| `WatchRuns.NoStaleResurrection` | muxrd/src/grpc/agent_ops.rs:424-433 | after a closure, a message carries the pane only after a later status event for it or out of a read started after the closure |
| `WatchRuns.NoStaleOverwrite` | muxrd/src/grpc/agent_ops.rs:502-506 | a diff from a read that started before a status event says nothing about that event's pane, unless its closure was taken in between |
| `WatchMarks.MarkMoves` | muxrd/src/grpc/agent_ops.rs:474-561 | a mark is there after a step only if that step raised it, or it was there and no read started, or a failing read gave it back |
| `WatchMarks.CarryMoves` | muxrd/src/grpc/agent_ops.rs:474-482 | a read answers a need only if that was marked when the read started |
| `WatchMarks.OwedOnlyIfCaused` | muxrd/src/grpc/agent_ops.rs:474-561 | whatever an open stream owes was raised by a status event, lag or resync that no successful read started after it has answered |
| `WatchMarks.SnapshotOwedIff` | muxrd/src/grpc/agent_ops.rs:474-561 | a whole snapshot is owed if and only if a lag or resync is unanswered |
| `WatchMarks.ReadsOnlyWhenCaused` | muxrd/src/grpc/agent_ops.rs:467-482 | a re-read starts only for such a cause |
| `WatchMarks.SnapshotsAreCaused` | muxrd/src/grpc/agent_ops.rs:496-507 | a snapshot after the first is decided only for a lag or resync from before its read started, unanswered until then |
| `WatchMarks.NoStaleMessage` | muxrd/src/grpc/agent_ops.rs:496-507 | no message at all out of a read that started before a status event is about that event's pane, unless it was closed in between or a lag or resync before that start asked for everything |
| `WatchMarks.ClosureClears` | muxrd/src/grpc/agent_ops.rs:537-545 | once a closure is taken its pane is owed nothing until the next status event for it, or the failure of a read out at the closure |
| `WatchMarks.BusTells` | muxrd/src/grpc/agent_ops.rs:526-561 | a bus event decides at most one message, only when it changes the held rows or is an agreeing status event, and without a message the rows stay |
| `WatchMarks.OnlyNewsTells` | muxrd/src/grpc/agent_ops.rs:474-561 | no step but the opening, a bus event and a successful read decides a message or changes the held rows |
| `WatchMarks.ReadTellsTheChanges` | muxrd/src/grpc/agent_ops.rs:496-507 | a successful read decides one snapshot of the rows held then, or one message per pane whose row changed, and nothing else |
| `WatchMarks.FailingIsTheLast` | muxrd/src/grpc/agent_ops.rs:485-523 | the failing flag is set if and only if the last finished read failed |
| `WatchRuns.ClosureTravels` | muxrd/src/grpc/agent_ops.rs:537-545 | a read out when a closure is taken keeps that pane barred until it ends |
| `WatchRuns.ReadPacing` | muxrd/src/grpc/agent_ops.rs:615-646 | re-read starts are a debounce apart, so a window of length L holds at most L/debounce + 1 |
| `WatchRecovery.BenignDescends` | muxrd/src/grpc/agent_ops.rs:474-646 | with the backend left alone, a failing read owes no more than before, a successful one less, and every other step but waiting is closer to rest, in a well-founded order |
| `WatchRecovery.NeverStuck` | muxrd/src/grpc/agent_ops.rs:602-646 | short of rest some such step is enabled, at the latest once the debounce has passed |
| `WatchRecovery.AlwaysRecoverable` | muxrd/src/grpc/agent_ops.rs:602-646 | every reachable open state can come to rest on the current inventory, with no failed read, no dropped event and nothing published but changes not announced yet |
| `WatchRecovery.RecoversUnaided` | muxrd/src/grpc/agent_ops.rs:602-646 | if all changes were announced, the path to rest publishes nothing: the queued events and the kept marks suffice |
| `WatchRecovery.EventuallyConverges` | muxrd/src/grpc/agent_ops.rs:474-646 | continue any run by any fair endless schedule with the backend's rows left alone, events still dropped and reads still failing, if only after a failing read one succeeds sooner or later: from some point on the stream is at rest for good and holds the inventory |
| `Spacing.WindowBound` | muxrd/src/grpc/agent_ops.rs:108-110 | instants at least a gap apart: at most L/gap + 1 of them in a window of length L |
| `WatchStreams.WatchStream.constructor` | muxrd/src/grpc/agent_ops.rs:393-416 | an opened stream has its snapshot queued and its fatal lane armed |
| `WatchStreams.WatchStream.LookAtLane` | muxrd/src/grpc/agent_ops.rs:357-373 | the first half of a poll: the end once done, the error once sent, else the poll goes on |
| `WatchStreams.WatchStream.Receive` | muxrd/src/grpc/agent_ops.rs:374 | the second half: the oldest queued message, pending, or the end |
| `WatchStreams.WatchStream.PollNext` | muxrd/src/grpc/agent_ops.rs:357-375 | the yield and the whole new state of a poll between whose halves the loop does nothing |
| `WatchStreams.PolledFacts` | muxrd/src/grpc/agent_ops.rs:357-375 | such a poll takes at most the oldest queued message, fails exactly when the status was sent and not yet yielded, and yields no message once the channel is spent |
| `WatchStreams.KeepPipe` | muxrd/src/grpc/agent_ops.rs:357-658 | deliveries, exits, drops and both halves of polls, interleaved, keep the delivery invariant, the channel bound included |
| `WatchStreams.FatalOvertakes` | muxrd/src/grpc/agent_ops.rs:339-373 | once the fatal status is sent a poll that looks at the lane yields the error and later ones end-of-stream, whatever is queued |
| `WatchStreams.DrainsFully` | muxrd/src/grpc/agent_ops.rs:345-375 | a stream that ended without error delivered everything sent, and everything decided unless the client had left or the stream was revoked |
| `WatchEndToEnd.StreamOrder` | muxrd/src/grpc/agent_ops.rs:357-375 | over every run the client reads a prefix of the decided messages in order, then only end-of-stream and at most one error, which comes first or right after a single end |
| `WatchEndToEnd.ClientConverges` | muxrd/src/grpc/agent_ops.rs:602-658 | a client that read everything of a stream at rest holds exactly the backend's inventory |
| `WatchEndToEnd.StatusReachesClient` | muxrd/src/grpc/agent_ops.rs:528-536 | over every run, an agreeing status event puts the held row with its status right behind what was decided before, so the client reads it next after that; its pane is owed a re-read all the same |
| `WatchEnding.RevokedEndsCleanlyIff` | muxrd/src/grpc/agent_ops.rs:357-375 | a revoked stream ends without the error if and only if one poll looked at the lane before the status was sent and received after the channel was dropped |
| `WatchEnding.CleanEndIsComplete` | muxrd/src/grpc/agent_ops.rs:648-658 | a clean end with the client present means the client read every decided message and holds the stream's rows, unless the stream was revoked and a poll straddled its end; then exactly the loop's hand and outbox are missing |
| `WatchEnding.FatalIsFinal` | muxrd/src/grpc/agent_ops.rs:357-375 | after the fatal status is sent no message is ever read again, but for at most one by a poll that had looked before |
| `WatchEnding.EndedForCause` | muxrd/src/grpc/agent_ops.rs:563-572 | a loop that ended did so by the step its reason names, and an error reaches the client only after a failed token re-check |
| `WatchEnding.HeldMessageCanBeLost` | muxrd/src/grpc/agent_ops.rs:362-374 | from every reachable state with a message in the loop's hand and the rest read, five steps end a revoked stream cleanly without that message; polled again it fails |
| `WatchEnding.HoldingIsReached` | muxrd/src/grpc/agent_ops.rs:602-610 | there is such a reachable state |
| `WatchEnding.LateMessageCanBeRead` | muxrd/src/grpc/agent_ops.rs:362-374 | from every reachable state with a message queued, a poll can read it after the status was sent |
| `WatchLiveness.PathDescends` | muxrd/src/grpc/agent_ops.rs:578-600 | idle steps leave everything in place; a delivery brings a message nearer to the client and touches nothing else |
| `WatchLiveness.NeverStuck` | muxrd/src/grpc/agent_ops.rs:578-646 | until the client has read all of a stream at rest, some step gets on with it after at most a wait or a look, a full channel included |
| `WatchLiveness.ClientEventuallyConverges` | muxrd/src/grpc/agent_ops.rs:339-658 | continue any run with the loop running and the client polling by any fair endless schedule with the backend left alone: from some point on nothing is on its way and the client holds exactly the inventory |
| `TokenBuckets.SpendFacts` | muxr-notify/src/ratelimit.rs:76-84 | spending keeps tokens within [0, capacity] and costs one exactly when it admits |
| `TokenBuckets.LevelOverTime` | muxr-notify/src/ratelimit.rs:76-77 | from any clock reading to any other a key gains at most the refill of the climb, and going forward it loses nothing |
| `TokenBuckets.LevelGrows` | muxr-notify/src/ratelimit.rs:76-77 | going forward a level grows by exactly the refill, up to the capacity |
| `TokenBuckets.ClimbInOrder` | muxr-notify/src/ratelimit.rs:76-77 | the climbs a limiter refills for are at least the time from first to last reading, and exactly that if and only if the readings are in order |
| `TokenBuckets.ClimbBound` | muxr-notify/src/ratelimit.rs:68-85 | any stretch of calls, whatever the clock readings, admits a metered key within a full bucket, the refill of all climbs, and a bucket per reset |
| `TokenBuckets.MeterBound` | muxr-notify/src/ratelimit.rs:68-85 | with readings in order, at most (e + 1)·capacity + refill·(to − from) admissions in a window with e resets |
| `TokenBuckets.BelowOneIff` | muxr-notify/src/ratelimit.rs:68-85 | with readings in order a key has less than a token if and only if, since some earlier admission, admissions left less than one of capacity plus all the refill since |
| `NotifyLimiter.TokenBucketMap.constructor` | muxr-notify/src/ratelimit.rs:47-60 | a new limiter tracks no key |
| `NotifyLimiter.TokenBucketMap.Evict` | muxr-notify/src/ratelimit.rs:89-106 | idle buckets go; then only as many of the oldest-touched keys as room for the new one needs |
| `NotifyLimiter.TokenBucketMap.TryAcquireAt` | muxr-notify/src/ratelimit.rs:68-85 | the answer and the new map, for some admissible eviction |
| `NotifyLimiterRuns.RangeAlways` | muxr-notify/src/ratelimit.rs:68-85 | in every run stored tokens stay within [0, capacity] |
| `NotifyLimiterRuns.IdleIsFull` | muxr-notify/src/ratelimit.rs:32-36 | a bucket past the idle horizon is provably full |
| `NotifyLimiterRuns.SweepRefinesReference` | muxr-notify/src/ratelimit.rs:89-93 | with readings in order and without cap evictions, every answer of every run is that of a limiter that never forgets |
| `NotifyLimiterRuns.StretchBound` | muxr-notify/src/ratelimit.rs:63-85 | requests answered in a row, whatever their clock readings: capacity, the refill of all climbs, and capacity per cap eviction of the key |
| `NotifyLimiterRuns.RateBound` | muxr-notify/src/ratelimit.rs:68-85 | with readings in order a key is admitted at most (e + 1)·capacity + refill·(to − from) times in any window in which the cap evicted it e times |
| `NotifyLimiterRuns.RefusedIff` | muxr-notify/src/ratelimit.rs:68-85 | with readings in order a request is refused if and only if, since an earlier admission of its key, admissions left less than a token of capacity plus all the refill since, and the cap did not evict the key in between |
| `NotifyLimiterRuns.BoundedMemory` | muxr-notify/src/ratelimit.rs:8-13 | after every call of every run the map holds the called key and at most `hard_cap` keys |
| `NotifyLimiterRuns.EvictsOldestFirst` | muxr-notify/src/ratelimit.rs:94-105 | every key the cap evicted was touched no later than any key it left, and with readings in order no later than any key stored afterwards |
| `NotifyLimiterRuns.EvictsNoMore` | muxr-notify/src/ratelimit.rs:94-105 | after the cap evicted a key the map is exactly full |
| `NotifyLimiterRuns.ForgetsIdle` | muxr-notify/src/ratelimit.rs:89-93 | a key whose last call was capacity/refill seconds before a request of another key is forgotten |
| `ServerLimiter.RateLimiter.constructor` | muxrd/src/ratelimit.rs:134-140 | a new limiter tracks no address |
| `ServerLimiter.RateLimiter.Allow` | muxrd/src/ratelimit.rs:144-176 | the answer and the whole new state, sweep included |
| `ServerLimiter.SweepRemovesNothing` | muxrd/src/ratelimit.rs:163-173 | no stored bucket is ever full, so the map holds exactly the addresses seen; every request is counted |
| `ServerLimiter.WithinLimitIff` | muxrd/src/ratelimit.rs:50-53 | the map keeps to the tracking limit if and only if no more distinct addresses than that called |
| `ServerLimiter.MemoryIsUnbounded` | muxrd/src/ratelimit.rs:50-53 | for every n a run of n calls ends with n tracked addresses |
| `ServerLimiter.StretchBound` | muxrd/src/ratelimit.rs:144-161 | requests answered in a row, whatever their clock readings: burst and the refill of all climbs |
| `ServerLimiter.RateBound` | muxrd/src/ratelimit.rs:144-161 | with readings in order an address is admitted at most burst + rps·(to − from) times in any window |
| `ServerLimiter.RefusedIff` | muxrd/src/ratelimit.rs:144-161 | with readings in order a request is refused if and only if, since an earlier admission of its address, admissions left less than a token of the burst plus all the refill since |
| `ServerLimiter.OutOfOrderBreaksRate` | muxrd/src/ratelimit.rs:145-157 | a three-request run with readings 1, 0, 1 that exceeds that bound |
| `NotifyStore.Registered` | muxr-notify/src/store.rs:67-103 | a known handle is the one returned, else the minted one unless it is taken; the returned row is live with the new token and platform, keeps its dates when known and starts blank when new; every other row is untouched, no daily counter moves |
| `NotifyStore.Recorded` | muxr-notify/src/store.rs:132-145 | a recorded send stamps its row, keeps its device, dates of creation and prune flag, and touches no other row |
| `NotifyStore.Pruned` | muxr-notify/src/store.rs:148-157 | pruning sets one row's flag and changes nothing else |
| `NotifyStore.Store.constructor` | muxr-notify/src/store.rs:33-49 | a new table has no rows |
| `NotifyStore.Store.Register` | muxr-notify/src/store.rs:67-103 | refresh in place, insert the minted handle, or fail on a key conflict |
| `NotifyStore.Store.Lookup` | muxr-notify/src/store.rs:106-128 | the handle's row, if any |
| `NotifyStore.Store.RecordSend` | muxr-notify/src/store.rs:132-145 | one more send today, or the first of another day; nothing without a row |
| `NotifyStore.Store.MarkPruned` | muxr-notify/src/store.rs:148-157 | only the handle's prune flag is set |
| `NotifyStore.Store.Delete` | muxr-notify/src/store.rs:160-169 | exactly the handle's row goes |
| `DailyCap.InvAlways` | muxr-notify/src/store.rs:132-145 | in every run a live row's counter is today's deliveries for its handle since the last late record, which is all of them when there was none |
| `DailyCap.CapUnderOverlap` | muxr-notify/src/handlers.rs:189-237 | with at most k overlapping requests for a handle, today's recorded plus in-flight sends never exceed cap + k − 1 (cap at least 1), once more for each late record that took today's counter away |
| `DailyCap.BoundIsReached` | muxr-notify/src/handlers.rs:189-237 | for every cap and every k some run without a late record reaches that bound |
| `DailyCap.Straddle` | muxr-notify/src/handlers.rs:202-221 | a send decided before midnight and recorded after today's first one leaves the handle with a delivery today and a counter of none |
| `DailyCap.CapHoldsWithinDay` | muxr-notify/src/handlers.rs:202-205 | in states without a late record today, all runs keep to cap + k − 1 if and only if the cap is positive |
| `DailyCap.CapHoldsIff` | muxr-notify/src/handlers.rs:189-237 | all runs keep to cap + k − 1 if and only if the cap is positive and requests never overlap |
| `DailyCap.PruneHolds` | muxr-notify/src/handlers.rs:197-231 | once a device was reported gone no lookup of its handle passes until it registers again |
| `DailyCap.RowMoves` | muxr-notify/src/handlers.rs:189-237 | a row moves only by a registration returning its handle, a delivery or prune for it, or its deletion, comes only by the first and goes only by the last; lookups, decisions, provider failures and midnight leave every row |
| `DailyCap.PrunedIff` | muxr-notify/src/handlers.rs:226-236 | a row is pruned if and only if the provider reported its device gone and it was not registered again since |
| `DailyCap.SendsToLastRegistered` | muxr-notify/src/store.rs:67-145 | a row carries the device of the last registration of its handle, whatever was sent, refused or pruned since |
| `DailyCap.LetThroughIff` | muxr-notify/src/handlers.rs:197-208 | a request deciding on the row as it stands is let through if and only if the device is not gone, the limiter agrees and today's counter is below the ceiling |
| `ControlRouting.ControlRegistry.constructor` | muxrd/src/relay/types.rs:215-224 | an empty registry |
| `ControlRouting.ControlRegistry.Send` | muxrd/src/grpc/helpers.rs:156-165 | queued on that relay alone, or not at all when its receiver is gone |
| `ControlRouting.ControlRegistry.TryRouteControl` | muxrd/src/grpc/helpers.rs:76-166 | for a request nothing interferes with: ok means exactly one permitted relay's channel grew by the command, anything else that none did; who may be steered, and when a request is refused or falls through |
| `ControlRouting.CollapsedIff` | muxrd/src/multiplexer/routing.rs:69-71 | a session is collapsed if and only if the text before its first colon is herdr |
| `ControlRouting.KeepInv` | muxrd/src/grpc/helpers.rs:76-166 | lookups, scans entry by entry, sends, joins, departures and dying receivers, of any number of requests interleaved, keep the routing invariant |
| `ControlRouting.Isolation` | muxrd/src/grpc/helpers.rs:76-166 | over every such run, whatever a relay was ever sent came from an acknowledged request of its session that named it, or whose lookup missed and that may fall back to a writable relay |
| `ControlRouting.Confined` | muxrd/src/grpc/helpers.rs:27-72 | read-only callers, collapsed sessions and read-only relays: the command came from a request of that session naming that connection |
| `ControlRouting.DeliveredOnce` | muxrd/src/grpc/helpers.rs:76-166 | a request is acknowledged ok if and only if its command was queued, and then in one place, once |
| `ControlRouting.FailsClosed` | muxrd/src/grpc/helpers.rs:106-142 | a request on a collapsed session ends routed or refused; there, and for a read-only caller, one whose connection was not found ends refused; no other is refused |
| `ControlRouting.UnroutedIsTurnedDown` | muxrd/src/grpc/helpers.rs:106-166 | a request ends unrouted only if it had no fallback, its scan found nobody, or the receiver was gone |
| `ControlRouting.ChannelMoves` | muxrd/src/grpc/helpers.rs:156-166 | a channel moves only as its relay takes one command, dies or is sent one; entries come and go one by one |
| `ControlRouting.InOrder` | muxrd/src/grpc/helpers.rs:156-166 | a relay's log only grows at its end, so commands are taken in the order they were queued |
| `ControlRouting.MissedAt` | muxrd/src/grpc/helpers.rs:84-97 | a request falls back only if its connection was not registered for its session at the instant it was looked up |
| `ControlRouting.GivesUpOnlyWhenAlone` | muxrd/src/grpc/helpers.rs:143-153 | a scan finds nobody only if no relay that could serve was registered from its start to its end |
| `LayoutOverlay.FirstActive` | muxrd/src/relay/helpers.rs:31 | the first active tab, or none is active |
| `LayoutOverlay.FirstFocused` | muxrd/src/relay/helpers.rs:37-42 | the first focused pane of the tab, or none is focused |
| `LayoutOverlay.FindShowing` | muxrd/src/grpc/layout.rs:545-554 | the first tab that shows the pane, or no tab does |
| `LayoutOverlay.OwnViewIdentity` | muxrd/src/relay/helpers.rs:25-52 | with distinct tab ids, overlaying the view derived from a snapshot gives the raw layout if and only if at most one tab is active and, in it, focus is the tracked pane |
| `LayoutOverlay.RawIsSnapshot` | muxrd/src/grpc/layout.rs:612-682 | without a view state the layout is the snapshot with plugin panes left out, in order |
| `LayoutOverlay.OverlayKeepsTheRest` | muxrd/src/grpc/layout.rs:583-682 | for every view state only `active` and the in-scope focus can differ from the raw layout; no plugin pane appears |
| `LayoutOverlay.OverlayIsRawIff` | muxrd/src/grpc/layout.rs:583-682 | any view state gives the raw layout if and only if it resolves to no tab or asks for exactly the active flags and focus the snapshot has |
| `LayoutOverlay.ScopeIs` | muxrd/src/grpc/layout.rs:536-555 | the scope is the tracked tab; untracked, the first tab holding the focused pane unless that is a plugin's; else none |
| `LayoutOverlay.ScopedFocus` | muxrd/src/grpc/layout.rs:635-648 | in the scoped tab exactly the tracked pane is focused, whatever the snapshot says; with none tracked the panes are the snapshot's |
| `LayoutOverlay.TrackedTab` | muxrd/src/grpc/layout.rs:583-682 | a tracked tab is the only active one and shows the tracked focus; other tabs keep the snapshot's panes |
| `LayoutOverlay.ScopeIsExclusive` | muxrd/src/grpc/layout.rs:593-608 | a resolved scope leaves at most that tab active |
| `LayoutOverlay.DerivedScope` | muxrd/src/grpc/layout.rs:536-555 | a scope derived from the tracked pane makes exactly its tab active with that pane its only focused one |
| `InputPumps.ReadsUntilStopped` | muxrctl/src/tui/runner.rs:227-234 | a fill reads the first ready events, none skipped, up to the bound; it uses up the quiet or failing answer that stopped it, fails exactly on a failing one, and leaves the rest unread |
| `InputPumps.RoutesLatestMove` | muxrctl/src/tui/runner.rs:242-248 | the event routed is the first pending one or the last of a leading run of moves; what follows it stays |
| `InputPumps.CoalesceMoves` | muxrctl/src/tui/runner.rs:281-290 | each move directly followed by a move is dropped, nothing else |
| `InputPumps.KeepEvents` | muxrctl/src/tui/runner.rs:266-272 | the kept events in order |
| `InputPumps.InputPump.constructor` | muxrctl/src/tui/runner.rs:208-213 | an empty queue and the given tick |
| `InputPumps.InputPump.Fill` | muxrctl/src/tui/runner.rs:223-238 | refills only an empty queue, with the kept and coalesced batch; an error drops that batch |
| `InputPumps.InputPump.Next` | muxrctl/src/tui/runner.rs:242-248 | pops the next event, skipping superseded moves |
| `InputPumps.InputPump.HeartbeatDue` | muxrctl/src/tui/runner.rs:253-260 | due exactly a tick after the last one, and then consumed |
| `InputPumps.CoalesceIdempotent` | muxrctl/src/tui/runner.rs:278-290 | coalescing twice is coalescing once |
| `InputPumps.DrainOneFill` | muxrctl/src/tui/runner.rs:223-248 | draining one fill routes the kept input with each superseded move dropped |
| `InputPumps.ReadsInOrder` | muxrctl/src/tui/runner.rs:223-238 | over any calls, what was read and what is still unread are all the source's events in order |
| `InputPumps.BatchesArePassedOn` | muxrctl/src/tui/runner.rs:216-248 | for every source and interleaving, routed and pending non-moves are exactly the kept non-moves of the fills that succeeded, in order |
| `InputEvents.IntentsPass` | muxrctl/src/tui/runner.rs:216-290 | every press, button, wheel and paste of a successful fill is routed or pending, once and in order |
| `InputEvents.NothingElsePasses` | muxrctl/src/tui/runner.rs:262-272 | no release, repeat, resize or focus event is ever pending or routed |
| `InputEvents.LatestMovePasses` | muxrctl/src/tui/runner.rs:278-290 | a pointer move with no other move before the next thing the user does, or the batch's end, is kept in its place |
| `InputEvents.PendingIsSettled` | muxrctl/src/tui/runner.rs:216-248 | of several pointer moves in a row only the last is ever pending |
| `InputPumps.PumpIsFaithfulIff` | muxrctl/src/tui/runner.rs:216-248 | routed and pending non-moves are exactly the kept non-moves ever read if and only if no failing fill had read one |
| `InputPumps.SafeSourceIff` | muxrctl/src/tui/runner.rs:216-248 | a source is passed on faithfully under all calls if and only if no failing batch it is cut into holds a kept non-move |
| `InputPumps.FailingFillLosesKey` | muxrctl/src/tui/runner.rs:231-233 | a key read before a poll or read fails in the same fill is neither routed nor pending |
| `InputPumps.HeartbeatsSpaced` | muxrctl/src/tui/runner.rs:250-260 | heartbeats are a tick apart, so at most L/TICK + 1 in a window of length L |
| `InputPumps.NeverOverdue` | muxrctl/src/tui/runner.rs:250-260 | right after the pump was asked the last heartbeat is less than a tick old |
| `TextCodec.PercentEncode` | muxrctl/src/pairing/payload.rs:118-129 | the loop writes the percent-encoding of the bytes |
| `TextCodec.PercentRoundTrip` | muxrctl/src/pairing/payload.rs:112-129 | decoding per section 2.1 of RFC 3986 gives the bytes back, and no '&' is written |
| `TextCodec.PercentConforms` | muxrctl/src/pairing/payload.rs:112-129 | only unreserved characters and escapes with uppercase digits are written, section 2 of RFC 3986 |
| `TextCodec.EscapedIff` | muxrctl/src/pairing/payload.rs:118-127 | a byte is written as it is if and only if it is unreserved |
| `TextCodec.Base64RoundTrip` | muxrctl/src/pairing/payload.rs:91 | decoding per section 5 of RFC 4648 gives the token's bytes back, and no '&' is written |
| `TextCodec.Base64Shape` | muxrctl/src/pairing/payload.rs:91 | only the URL-safe alphabet is written, without padding, in exactly the length needed |
| `TextCodec.Base64Words` | muxrctl/src/pairing/payload.rs:91 | two encoded words that use both ends of the alphabet |
| `TextCodec.DecimalRoundTrip` | muxrctl/src/pairing/payload.rs:100-108 | the printed port reads back |
| `TextCodec.DecimalCanonical` | muxrctl/src/pairing/payload.rs:100-108 | the printed number has no leading zeros |
| `TextCodec.SplitJoin` | muxrctl/src/pairing/payload.rs:112-117 | splitting on the separator recovers the parts that do not contain it |
| `PairingUri.UriJoinsParts` | muxrctl/src/pairing/payload.rs:90-109 | the URI is its prefix and its key=value parts joined by '&' |
| `PairingUri.FingerprintIffPinned` | muxrctl/src/pairing/payload.rs:95-98 | `fp` is present exactly for a pinned certificate |
| `PairingUri.RoundTripIff` | muxrctl/src/pairing/payload.rs:90-129 | host, port, token, flag, label and trust are all read back if and only if the host has no '&' |
| `PairingUri.PrinterInjective` | muxrctl/src/pairing/payload.rs:90-129 | two printable parameter sets with clean hosts never share a URI |

## Left out

- Token re-validation itself, TLS, bearer auth, gRPC and HTTP plumbing, the FCM client, SQLite: libraries and I/O; a failed token re-check is a step of the delivery path, the registration table is a map.
- `sort_agents`, `AgentSummary` and the mapping of a backend snapshot to a wire row: the wire rows are the model's rows and a listing's order is arbitrary; summaries are not modelled.
- The herdr event kernel and the backends: they are the environment, with the assumptions listed above.
- Scheduling: that the loop runs, that a read ends and that a client keeps polling is assumed where it matters (`Fair` and `Retries` in `EventuallyConverges` and `ClientEventuallyConverges`), not derived from the runtime.
- Floating point: token counts, rates and instants are real numbers; `f64` and `Duration` rounding is not modelled, nor a negative refill rate, which no limiter is built with.
- Concurrent calls into the limiters: answers are taken one at a time in the order the locks give, with clock readings in any order; the sweep of `muxrd/src/ratelimit.rs:163-173` is taken with the answer before it.
- NotifyLimiterRuns.SweepRefinesReference: says nothing about runs in which the hard cap evicts or clock readings go back, where single answers can differ either way.
- DailyCap.CapUnderOverlap: assumes store writes succeed and minted handles are fresh; the 32-bit reading of the stored counter is not modelled.
- `get_layout_impl`, `space_scoped_layout`, `space_is_own` and `should_apply_view_state_override`: registry reads around the overlay and one-line predicates; the agent mark of a pane is copied through unmapped.
- `session_is_read_only` and `reject_if_read_only`: the caller's flag is an input of the routing model; acknowledgement texts are not modelled.
- `day_bucket`, `resolve_client_ip` and `mint_handle`: the day, the limiter keys and fresh handles are inputs.
- The TUI loop around the pump, poll timeouts and message mapping: only what is read, queued and routed is modelled.
- UTF-8: token and label are byte sequences, host and fingerprint character sequences.
- Token expiry files, client counts, control framing, configuration precedence, start and stop decisions, dialogs, shortcuts, example clients, packaging: short case analyses or user interface.
