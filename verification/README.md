# TopoExec runtime model

TopoExec is a deterministic in-process dataflow runtime. A compiler turns components and edges into an ordered
plan of regions; an epoch loop runs the plan over bounded channels, staged publications, trigger policies and
transactional configuration. This project models those parts in Dafny and proves how they behave over every input,
every run and every schedule.

| file | models |
|---|---|
| `Ids`, `Digraph` | ordered names; paths and reachability |
| `Scc`, `RegionOrder`, `GraphSpecs`, `RegionGraph`, `GraphCompiler` | the graph compiler: Tarjan, loop matching, condensation, priority-driven ordering |
| `Messages`, `Channels`, `ReaderCursors`, `ChannelBatch`, `ChannelBus` | channels with five overflow policies, per-reader cursors and two-phase batches |
| `Staging`, `PublicationRouter` | the router and its four stores, async admission and composite regions |
| `TriggerQueues`, `TimeSync`, `TriggerEngine` | trigger policies |
| `StateStores`, `ConfigTransactions` | the state store and the config transaction |
| `RunHistory`, `LoopPolicies`, `RunEffects`, `VisitChannels`, `EpochLoop`, `PlannedRun` | the epoch loop, and what it guarantees together with the compiler |
| `Counterexamples` | runs of the router and the bus that do not do what one might expect |
| `TaskExecutor`, `LiveObserve` | the worker pool and the single-producer single-consumer ring as step protocols |
| `BufferPool`, `Utf8` | buffer ownership; UTF-8 validation |

Classes are the runtime's objects, with fields the methods update in place; ghost fields are ledgers and histories.
Where a method is proved against a function on values (a channel's `Published`, `ReadQueue`; the router's `Staged`,
`Released`), the properties are lemmas about those functions, and lemmas over whole runs follow by induction.
Time, what executions do, payload contents, cancellation and convergence reports are parameters (`RunEffects.World`);
an execution may drain ports, write state, ask for configuration updates and publish.

Preconditions that the code relies on without checking them: edge ids are distinct (`src/channel.cpp:249`); region
ids are distinct (`src/graph.cpp:556-563`, `src/graph.cpp:580-583`), since two regions with one id would be merged in
the ordering loop; trigger inputs are distinct (`src/trigger_policy.cpp:206-210`); a run starts with only next-epoch
publications held. `PlannedRun` also takes from validation that every edge declares a valid kind, and attributes
publications to regions only where no port name contains a dot, since `src/component.cpp:97` joins names with one.
A bus tells readers apart by such joined names too (`src/channel.cpp:630-636`): two inputs that share one are one reader to
it, so conservation per input is about inputs with a reader name of their own (`EpochLoop.EventRuntime.OwnReader`).
A run starts with new trigger entries, as it makes its own engine (`src/event_runtime.cpp:450`).

Three things the code does not guarantee; for each the exact condition under which it holds is proved:

- The router's fan-out is not all or nothing. It is exactly when every edge is willing, or already the first one is not
  (`PublicationRouter.FanOutAtomic`); `Counterexamples.FanOutTears` is a run in which it is not.
- Discarding a composite region does not bring back what async admission evicted. It does exactly when nothing was
  evicted from the channel since the region opened, or nothing was pending there (`Staging.DiscardRestores`);
  `Counterexamples.DiscardForgets` is a run in which it does not.
- A refused publish on the bus does not always leave the channels as they were. It does, but for tallies, when the
  endpoint feeds several channels or the payload may not be carried (`ChannelBus.RefusalLeaves`, about every refusal of
  `ChannelBus.RuntimeChannelBus.PublishFrom`); a single full channel consumes a sequence number
  (`Counterexamples.RefusalCounts`).

## Model

| member | source | states |
|---|---|---|
| Scc.TarjanScc | src/graph.cpp:386-434 | The output lists partition all nodes; two nodes share a list exactly when each reaches the other; an edge never leads to a later list; each list is sorted. |
| Scc.SccFinder.StrongConnect | src/graph.cpp:395-426 | Visits a node and everything unvisited it reaches; its low index says whether an older node on the stack is reachable; finished lists only grow. |
| Scc.SccFinder.CloseComponent | src/graph.cpp:412-425 | At a root, the nodes from the root to the top of the stack are exactly one component. |
| Ids.LessIff | src/graph.cpp:436-440 | The order of names, by which lists are sorted and ordered containers run, is lexicographic. |
| GraphSpecs.EdgeIff | src/graph.cpp:475-488 | The immediate graph has an edge exactly where a declared edge with a valid kind, which is immediate, joins two known components. |
| GraphSpecs.OthersLeaveNoTrace | src/graph.cpp:479-482 | Delay, state and async edges, and edges without a valid kind, do not appear in the immediate graph. |
| GraphSpecs.EndpointParts | src/graph.cpp:161-167 | The component of an endpoint is what stands before its last dot, or all of it. |
| GraphCompiler.CheckLoops | src/graph.cpp:492-519 | No error exactly when loop ids are present and distinct, every loop lists known components once, and no component has two loops. |
| GraphCompiler.SameComponentSetIff | src/graph.cpp:436-440 | Comparing sorted lists decides equality of the two lists as multisets. |
| GraphCompiler.SelfLoopIff | src/graph.cpp:453-463 | The scan of the edges finds a self-loop exactly when the component has an immediate edge to itself. |
| GraphCompiler.MatchRegions | src/graph.cpp:532-576 | One region per component list, in order; errors exactly when a cyclic list is undeclared or a loop is not the first match of some list. |
| GraphCompiler.RegionNamed | src/graph.cpp:554-569 | A region is a loop exactly when some loop lists its components, and then has the id of the first such loop; a single component names its own region. |
| GraphCompiler.CleanIffCycles | src/graph.cpp:532-576 | For well-formed loops, matching reports nothing exactly when the loops are the classes of mutually reachable components that lie on cycles. |
| GraphCompiler.LoopsCutAllCycles | src/graph.cpp:532-576 | In a graph that compiles, taking away the edges inside loops leaves nothing on a cycle. |
| GraphCompiler.CompileGraph | src/graph.cpp:465-662 | With distinct region ids: errors are empty exactly when the declared loops are the cycles of the graph, the cycle error after condensation never fires, and the plan is a permutation of the regions that is topological and priority-greedy. |
| GraphCompiler.DelayedEdgesIgnored | src/graph.cpp:465-660 | Taking away every edge that is not immediate changes neither whether a graph compiles, nor which plans are right for it: feedback over delay, state or async edges needs no loop. |
| GraphCompiler.PlanSettled | src/graph.cpp:554-660 | Once the components are listed, there is only one right plan: regions, ids, ranks, links and order. |
| GraphCompiler.UrgentFirst | src/graph.cpp:614-633 | Whenever a region is emitted it holds a component no less urgent than any component of any other ready region; high before normal before low before background. |
| GraphCompiler.NamesApartSuffice | src/graph.cpp:554-569 | Region ids are distinct as soon as no loop is named like a component. |
| GraphCompiler.ProducersRunFirst | src/graph.cpp:584-657 | An immediate edge between different regions goes forward in the plan. |
| RegionGraph.LinkRegions | src/graph.cpp:578-612 | The condensed graph links two regions exactly when an immediate edge crosses from one to the other, each pair once. |
| RegionGraph.LinksDescend | src/graph.cpp:584-601 | Condensed edges lead from later to earlier component lists only. |
| RegionOrder.OrderRegions | src/graph.cpp:614-660 | Every emitted region was ready and was preferred, by rank and then by arrival, to every other ready one; what is not emitted blocks itself. |
| RegionOrder.SortOfArrivals | src/graph.cpp:627-642 | Stable sorting by falling rank of a queue in arrival order gives the order by rank and then arrival. |
| RegionOrder.GreedyIsTopological | src/graph.cpp:643-657 | A greedy order emits every region after its predecessors. |
| RegionOrder.DescendingHasNoCycle | src/graph.cpp:578-601 | Edges that only lead to earlier declarations cannot form a cycle. |
| RegionOrder.DrainsIffAcyclic | src/graph.cpp:643-660 | The ordering loop emits all regions exactly when the region graph has no cycle. |
| RegionOrder.PlanUnique | src/graph.cpp:614-657 | Priority, readiness and arrival leave no choice: there is only one plan. |
| Channels.PublishedSound | src/channel.cpp:793-881 | A publish keeps the queue within capacity and increasing, cursors behind the next sequence, and the ledger balanced, whether it is accepted or refused. |
| Channels.PublishedToQueue | src/channel.cpp:810-881 | On a queue a publication joins the end, pushes the oldest message out, or is turned away, as room and overflow policy say; each attempt takes a sequence number, and the counts are exact. |
| Channels.PublishedAsValue | src/channel.cpp:810-833 | A channel that holds one value takes every publication: at once, or with the next epoch if it is a previous_tick channel. |
| Channels.ReadQueueSound | src/channel.cpp:911-956 | A queue read keeps the same invariant, and the cursor map within 4096 entries. |
| Channels.ReadLatestSound | src/channel.cpp:883-909 | A latest-style read keeps the same invariant, and the cursor map within 4096 entries. |
| Channels.SnapshotSound | src/channel.cpp:958-989 | A snapshot keeps the same invariant: it only drops expired messages. |
| Channels.ReadSplits | src/channel.cpp:924-946 | A read splits the unexpired messages into delivered and retained ones; a multi-reader queue retains all of them. |
| Channels.ReadGivesDue | src/channel.cpp:911-949 | A read gives exactly the messages that have not expired and, with several readers, lie beyond the cursor, in order and up to the limit; a barrier gives none until it is full. |
| Channels.ValueGivenOnce | src/channel.cpp:883-909 | A read gives the value of such a channel unless it has expired or the reader was given it already. |
| Channels.LiveKeeps | src/channel.cpp:924-929 | Exactly the unexpired messages stay, in order. |
| Channels.BeyondKeeps | src/channel.cpp:930-943 | Exactly the messages beyond the cursor are wanted, in order. |
| ReaderCursors.EveryRunSound | src/channel.cpp:793-989 | In every state any mix of publishes, refusals, reads, snapshots and epochs can reach: queue length within capacity, increasing sequences, published = queued + overwritten + stale (+ delivered for a single reader), cursor maps within 4096 entries. |
| ReaderCursors.PruneUnnoticed | src/channel.cpp:174-196 | After pruning and the cap, a reader the cap spared is owed exactly the same retained messages. |
| ReaderCursors.ForgettingIsInvisible | src/channel.cpp:161-196 | Over every run, a reader the cap never hit is given exactly what it would be given if no cursor were ever forgotten. |
| ReaderCursors.EachReaderOnce | src/channel.cpp:883-956 | Over every run, such a reader is given each message at most once, in strictly increasing sequence, and on a multi-reader queue its cursor separates delivered from undelivered retained messages. |
| ReaderCursors.NothingMadeUp | src/channel.cpp:793-956 | Over every run, whatever a reader is given was published to that channel: same payload, time and timestamp, numbered by the publications before it. |
| ReaderCursors.PublishedOnce | src/channel.cpp:793-803 | No two publications give the same message. |
| ReaderCursors.PublishedIsNext | src/channel.cpp:810-852 | What is accepted on a latest-style channel is what every reader gets next (after the epoch advances, for previous_tick); on a queue it is the newest message. |
| ReaderCursors.PreviousTickHolds | src/channel.cpp:479-497 | The readable value of a previous_tick channel changes only when the epoch advances or by expiring. |
| ChannelBatch.FitsOneMore | src/channel.cpp:416-428 | A planned batch still fits with one more publication exactly when that one passes its own preflight with the planned count. |
| ChannelBatch.FittingBatchArrives | src/channel.cpp:456-472 | A batch that fits arrives whole on every channel: nothing is refused, sequences run on, the latest value (the pending one on a previous_tick channel) is the last publication for it, and a refusing queue loses no old message. |
| ChannelBus.RuntimeChannelBus.constructor | src/channel.cpp:233-253 | One channel per edge with the configuration the policy describes, listed under its source endpoint and target component in declaration order. |
| ChannelBus.ConfiguredIff | src/channel.cpp:233-247 | The configuration of a channel is the only one that says what the policy of its edge says, word by word. |
| ChannelBus.PortParts | src/graph.cpp:169-175 | The port of an endpoint is what stands behind its last dot. |
| ChannelBus.RuntimeChannelBus.PublishToState | src/channel.cpp:793-881 | Appends to the channel or refuses by overflow policy; a refusal still consumes a sequence number; the history records the publication. |
| ChannelBus.RuntimeChannelBus.PushBounded | src/channel.cpp:834-843 | Popping the oldest while over capacity leaves the newest messages and counts the lost ones. |
| ChannelBus.RuntimeChannelBus.Preflight | src/channel.cpp:748-791 | Accepts exactly when the payload may be carried and there is room beyond the planned publications; a refusal is only tallied. |
| ChannelBus.RuntimeChannelBus.CommitItems | src/channel.cpp:456-472 | Publishing a batch that passed preflight never meets a refusal, and each channel is sent exactly its items, in order. |
| ChannelBus.RuntimeChannelBus.PublishBatch | src/channel.cpp:390-477 | All or nothing: accepted exactly when every target is known and all publications fit together, and then the channels are sent exactly these; otherwise no queue, latest or pending value, cursor or sequence changes and nothing is sent. |
| ChannelBus.RuntimeChannelBus.PublishFrom | src/channel.cpp:333-388 | Several channels of an endpoint take a publication together or not at all; a single one is published to directly. |
| ChannelBus.RefusalLeaves | src/channel.cpp:333-388 | A refused publish leaves all queues, values, cursors and sequences as they were exactly when the endpoint feeds several channels or the payload may not be carried. |
| Counterexamples.RefusalCounts | src/channel.cpp:333-388 | A bus on which it does not: a single full channel that refuses, and counts a sequence number. |
| ChannelBus.NeverFull | src/channel.cpp:456-472 | While a fitting batch is committed, the next channel is never full. |
| ChannelBus.SplitQueue | src/channel.cpp:911-949 | The one-pass loop over a queue delivers, retains and drops what the specification says. |
| ChannelBus.ConsumeFromState | src/channel.cpp:911-956 | A queue read: delivery, retention, stale count, cursor and pruning. |
| ChannelBus.ConsumeLatestFromState | src/channel.cpp:883-909 | A latest-style read: expiry, withholding a value already delivered, cursor and pruning. |
| ChannelBus.SnapshotFromState | src/channel.cpp:958-989 | A snapshot shows unexpired messages up to the limit and delivers none. |
| ChannelBus.EnforceReaderCap | src/channel.cpp:185-196 | Evicts readers by name, smallest first, until the cap holds. |
| ChannelBus.RuntimeChannelBus.DrainForReader | src/channel.cpp:564-587 | Reads the channel by its style and records the step in its history. |
| ChannelBus.RuntimeChannelBus.PeekChannel | src/channel.cpp:543-607 | Shows what a channel holds, up to the limit, and delivers nothing: only expired messages go. |
| ChannelBus.RuntimeChannelBus.DrainForComponentPort | src/channel.cpp:616-649 | Drains the channels of a port in order until the batch is full; everything taken off a channel is delivered. |
| ChannelBus.DrainedBounded | src/channel.cpp:616-649 | A batch limit bounds what all channels of a port deliver together, and other channels are untouched. |
| ChannelBus.RuntimeChannelBus.AdvanceEpoch | src/channel.cpp:479-497 | Exactly the pending previous_tick values become readable. |
| ChannelBus.RuntimeChannelBus.ReaderIsGivenEachOnce | src/channel.cpp:883-956 | Whatever was done to a bus, its channels are runs of their histories, so the at-most-once result holds of them. |
| ChannelBus.HandedStep | src/channel.cpp:883-956 | Of everything the bus has handed out, what one reader got from one channel is what the history of the channel says the reader received; a read adds its output for its reader, any other step adds nothing. |
| Staging.NothingTwice | src/channel.cpp:1194-1353 | A staged publication is held in exactly one store or settled in exactly one way: committed, discarded, overwritten or lost with a refused batch. |
| Staging.RemoveFirst | src/channel.cpp:1141-1162 | Taking out the first pending publication of a channel takes the head off its queue and leaves other channels alone. |
| Staging.StagedPending | src/channel.cpp:1286-1314 | Wherever it is stored, a publication joins the end of its own async queue. |
| Staging.StagedWithin | src/channel.cpp:1164-1192 | Admission keeps every async queue within max_inflight. |
| Staging.WillingIff | src/channel.cpp:1164-1192 | An edge is not willing exactly when it is async, its channel holds max_inflight pending publications, and its policy drops none of them. |
| Staging.ReleasedPending | src/channel.cpp:1194-1209 | Committing a composite region does not reorder any async queue. |
| Staging.EmptiedPending | src/channel.cpp:1211-1338 | begin_epoch takes a prefix off every async queue, discard a suffix. |
| Staging.CommittedBalance | src/channel.cpp:1360-1391 | A committed or refused batch moves from held to settled exactly once. |
| PublicationRouter.RuntimePublicationRouter.constructor | src/channel.cpp:1107-1114 | Every endpoint lists its edges in order; distinct edge ids give one edge per channel, and no endpoint lists a channel twice. |
| PublicationRouter.RuntimePublicationRouter.BeginCompositeRegion | src/channel.cpp:1120-1125 | Opens a region at any time; what an earlier region left in the composite store is lost, and every other store is as it was. |
| PublicationRouter.RuntimePublicationRouter.DropOldestPendingAsync | src/channel.cpp:1141-1162 | Removes exactly the head of the channel queue, searching ready, next epoch and composite in that order. |
| PublicationRouter.RuntimePublicationRouter.AdmitAsync | src/channel.cpp:1164-1192 | Admits exactly when there is room or the policy lets the oldest make way; a refusal changes only counters. |
| PublicationRouter.RuntimePublicationRouter.StageOne | src/channel.cpp:1268-1314 | One bounded FIFO per async channel: the queue afterwards is the old one, less its head at the limit, plus the new publication. |
| PublicationRouter.RuntimePublicationRouter.PublishFrom | src/channel.cpp:1245-1317 | Accepted exactly when every edge of the endpoint has room or drops its oldest; otherwise exactly the edges before the first unwilling one keep theirs. Nothing stays staged on a refusal exactly when the first edge is the unwilling one. Every async queue takes what was staged at its end and gives up what was evicted at its head. |
| PublicationRouter.FanOutAtomic | src/channel.cpp:1245-1317 | The fan-out is all or nothing exactly when every edge is willing, or the first one already is not. |
| Counterexamples.FanOutTears | src/channel.cpp:1245-1317 | A run in which it is not: the second edge is full and refuses, and the first one keeps its publication. |
| PublicationRouter.TookOne | src/channel.cpp:1164-1192 | Whatever is staged, what was pending plus what was staged is what was evicted plus what is pending, channel by channel and in order. |
| PublicationRouter.ItemsDeliver | src/channel.cpp:1360-1391 | What the bus is handed for a batch is, channel by channel and in order, the payload and timestamp of each staged publication on that channel. |
| PublicationRouter.RuntimePublicationRouter.CommitBatch | src/channel.cpp:1360-1391 | Hands the batch to the bus: whole or not at all. The channels are sent exactly the payloads and timestamps of a batch that was accepted. |
| PublicationRouter.RuntimePublicationRouter.CommitCompositeRegionOutputs | src/channel.cpp:1194-1209 | Immediate outputs go out in one batch in staging order, deferred ones wait for the next epoch; what was committed is what the channels were sent. |
| PublicationRouter.RuntimePublicationRouter.DiscardCompositeRegionOutputs | src/channel.cpp:1211-1223 | Drops exactly the composite store. On every async channel that leaves the region the queue is then that of the opening, less what was evicted since. |
| Staging.DiscardRestores | src/channel.cpp:1211-1223 | Discarding brings back the queue of the opening exactly when nothing was evicted from it since, or it was empty. |
| Counterexamples.DiscardForgets | src/channel.cpp:1164-1223 | A run in which it does not: a publication of the region evicts the pending one, and is then discarded itself. |
| PublicationRouter.RuntimePublicationRouter.BeginEpoch | src/channel.cpp:1319-1338 | Advances the bus and commits everything that was ready, a prefix of every async queue; counts completions. |
| PublicationRouter.RuntimePublicationRouter.CommitImmediate | src/channel.cpp:1340-1347 | Commits the immediate store as one batch, which is what the channels are sent; no channel that leaves the active region changes, unless something for it was staged before the region opened. |
| PublicationRouter.RuntimePublicationRouter.EndEpoch | src/channel.cpp:1349-1353 | Next-epoch publications become ready behind those that already were. |
| PublicationRouter.Untouched | src/channel.cpp:1286-1391 | Committing publications that stay inside a region leaves the channels that leave it alone. |
| TriggerEngine.TriggerPolicyEngine.CollectReady | src/trigger_policy.cpp:266-340 | Timers and manual components bypass the queues; otherwise drained = pending + emitted + dropped still holds on every port, the invocations are what the policy makes of the messages taken in, group by group, and what leaves the queues otherwise is what the policy may drop. |
| TriggerEngine.TriggerPolicyEngine.CollectMessages | src/trigger_policy.cpp:266-340 | One answer is what the policy makes of the messages left after arrivals, timeouts and bounds, with only the drops it may make, or nothing at all while the rate limit holds; emissions of a whole run are at least the minimum interval apart. |
| TriggerEngine.TriggerPolicyEngine.Dispatch | src/trigger_policy.cpp:286-339 | Every policy kind is served by its own collection, and only by it, with the shape of each invocation: one message each for any_input and watermark. What leaves the queues is emitted or dropped, and what is dropped is what the kind may drop: late messages under watermark; under time_sync and the timestamp condition message by message what their rules say; nothing under the others. |
| TriggerEngine.TriggerPolicyEngine.Intake | src/trigger_policy.cpp:342-400 | Arrivals go behind what is pending; then timed-out messages and those beyond the bound are dropped, and only those. |
| TriggerEngine.LedgerStep | src/trigger_policy.cpp:266-340 | Any balanced collection keeps the whole-run ledger of drained messages. |
| TriggerEngine.TriggerPolicyEngine.PruneTimedOut | src/trigger_policy.cpp:355-377 | Exactly the messages older than the latency bound go. |
| TriggerEngine.TriggerPolicyEngine.EnforceBounds | src/trigger_policy.cpp:379-400 | Each queue keeps its newest messages up to its bound. |
| TriggerEngine.TriggerPolicyEngine.CollectAnyInput | src/trigger_policy.cpp:456-475 | One message per invocation, port by port in queue order: all of them, or just the first when invocations must keep a distance. |
| TriggerEngine.TriggerPolicyEngine.CollectCoalesced | src/trigger_policy.cpp:477-495 | One invocation with the newest message of every port that has one, however many are pending; older ones are lost, and none is where at most one was pending. |
| TriggerEngine.TriggerPolicyEngine.CollectAllInputs | src/trigger_policy.cpp:497-510 | Fires exactly when every input has a message, with one from each. |
| TriggerEngine.TriggerPolicyEngine.CollectTimeSync | src/trigger_policy.cpp:512-549 | Terminates, and is settled for any timestamps: only fronts that are all there, stamped in one domain and more than the slop apart lose their first oldest message; otherwise the fronts go together, or nothing when one is missing. For sorted queues in one domain it emits the componentwise earliest tuple within the slop if there is one, and every dropped message can belong to none, now or with later sorted arrivals. |
| TimeSync.SyncRunUnique | src/trigger_policy.cpp:512-549 | What is dropped, emitted and left is determined by what is pending, whatever the timestamps. |
| TimeSync.IncomparableGo | src/trigger_policy.cpp:524-528 | Fronts of which one has no timestamp, or two are of different domains, go together at once and nothing is dropped. |
| TimeSync.OldestFrontSkippable | src/trigger_policy.cpp:530-548 | Dropping the oldest front of a spread beyond the slop loses no possible match. |
| TimeSync.ExhaustedHasNoMatch | src/trigger_policy.cpp:518-522 | When a queue runs out, no tuple within the slop existed. |
| TimeSync.CloseFrontsMatch | src/trigger_policy.cpp:541-545 | Fronts within the slop are a match. |
| TriggerEngine.TriggerPolicyEngine.CollectWatermark | src/trigger_policy.cpp:551-580 | Late messages are dropped against watermarks that move with every message kept, port by port; the rest is emitted as any_input does, one message each, and nothing is lost. |
| TriggerEngine.TriggerPolicyEngine.CollectCondition | src/trigger_policy.cpp:582-633 | Each condition emits what it names; an unknown one emits nothing and keeps everything. The timestamp condition drops exactly the fronts without a timestamp, round by round while every input has a message, and then emits the fronts; every other one drops nothing. |
| TriggerEngine.TriggerPolicyEngine.CollectBatch | src/trigger_policy.cpp:635-676 | A full batch goes at once; a partial one goes exactly when a front message has waited for the window, with all there is; input by input, oldest first. |
| StateStores.RuntimeStateStore.CommitEpochBoundary | src/state.cpp:80-101 | Every pending value becomes current with a new version; the count is exact. |
| StateStores.RuntimeStateStore.StageWrite | src/state.cpp:19-78 | Accepts exactly well-formed writes by the owner of the key; a staged value is not readable yet. |
| StateStores.RuntimeStateStore.SeedValue | src/state.cpp:51-64 | As a staged write, but readable at once. |
| StateStores.StoreTellsHistory | src/state.cpp:51-101 | Over every run: the writer of a key is whoever first wrote it, and a reader sees the last value written before the last commit, or seeded after it. |
| StateStores.OwnerStays | src/state.cpp:36-48 | The owner of a key never changes. |
| StateStores.OthersAreRefused | src/state.cpp:36-48 | Writes by anyone else change nothing. |
| ConfigTransactions.ConfigSnapshotStore.StageUpdate | src/state.cpp:174-201 | Updates staged between two epochs share one transaction; an immediate update changes the store at once. |
| ConfigTransactions.ConfigSnapshotStore.RollbackPendingUpdates | src/state.cpp:208-216 | Nothing stays pending and the stored configuration is unchanged. |
| ConfigTransactions.ConfigSnapshotStore.CommitEpochBoundary | src/state.cpp:218-242 | Takes every pending update with one version bump and records the transaction for exactly its components. |
| ConfigTransactions.ApplyForward | src/event_runtime.cpp:547-584 | Applies in order and stops at the first failure; all are applied exactly when every component accepts its update. |
| ConfigTransactions.RestoreBackwards | src/event_runtime.cpp:563-575 | Components get their stored configuration back, the last applied one first, and refusals are reported in exactly that order. |
| ConfigTransactions.ApplyConfigTransaction | src/event_runtime.cpp:510-589 | All or nothing: succeeds exactly when every pending update has a component that validates and applies it. On failure the store is unchanged, nothing is pending, and the first invalid or unapplied update is reported; every component that was asked is asked to take its stored configuration back, and exactly those that refuse at that attempt are reported and do not run with it. |
| ConfigTransactions.RollbackHonest | src/event_runtime.cpp:563-575 | A rollback failure is reported only for a component of the transaction that refused its stored configuration; every component not reported runs with it. |
| ConfigTransactions.RollbackComplete | src/event_runtime.cpp:563-575 | If no component of the transaction refuses its stored configuration, all run with it after a failure and no rollback failure is reported. |
| ConfigTransactions.UndoUpdates | src/event_runtime.cpp:551-583 | The failed component and then those before it, backwards, are given their stored configuration back. |
| RunHistory.QuietMark | src/event_runtime.cpp:975-1112 | At a quiet region start, every immediate publication so far and everything of earlier iterations is delivered, and deferred publications of this iteration are not committed. |
| RunHistory.ImmediateArrivesFirst | src/event_runtime.cpp:778-787 | An immediate publication staged before a region starts has been committed by then, unless its loop discarded it. |
| RunHistory.DeferredArrivesNext | src/event_runtime.cpp:649-657 | Over every run: a deferred publication, wherever in its iteration it was staged, is not committed before the next iteration opens, and then is committed at once, unless it was discarded or overwritten. In particular what the last region stages, and what a plan of one region stages. |
| RunHistory.OpensHeld | src/event_runtime.cpp:649-657 | An iteration ends with nothing committed of what it deferred; at the first region start of the next one all it staged, its last region included, is committed, discarded or overwritten. |
| RunHistory.EpochOpens | src/event_runtime.cpp:649-657 | When an epoch opens, everything ever staged is settled. |
| PlannedRun.CrossingArrivesFirst | src/event_runtime.cpp:975-1112 | In a run along a compiled plan, what is staged while one region runs, on an immediate edge into another region, is committed when the other one starts in the same iteration, unless its loop discarded it. |
| PlannedRun.StagedByRegion | src/event_runtime.cpp:975-1112 | Whatever is staged between two region starts was published by a component of the region that ran in between, if port names have no dots. |
| PlannedRun.PlannedOrder | src/event_runtime.cpp:467-481 | The regions run in the order of the plan, each with its components and the policy of its loop. |
| PlannedRun.CompileAndRun | src/event_runtime.cpp:443-1190 | From a graph to the end of a run: the run starts exactly when the graph compiles; crossing publications arrive first; deferred ones arrive when the next iteration opens and never earlier, to the end of the run; the run stops when and for the reason that the rules say; every channel was sent exactly the payloads and timestamps of the committed publications for it, in order; and from the channels to the invocations no message is lost or doubled. |
| PlannedRun.ReceivedWasCommitted | src/channel.cpp:1360-1391 | Whatever a reader was given by a channel was committed to that channel with the same payload and timestamp. |
| EpochLoop.EventRuntime.ExecuteComponent | src/event_runtime.cpp:660-974 | A visit drains the inputs of its component, is given what its trigger policy makes of them, and leaves behind exactly what its executions did. From the channels as drained to those at the end: each execution drains, then its own immediate publications go out as one batch before the next one starts; or all drain, and all publications go out as one batch. Nothing that leaves an active region is committed. |
| EpochLoop.EventRuntime.ExecuteSequential | src/event_runtime.cpp:799-818 | One batch commit after each invocation, of exactly what that invocation published immediately inside the region, on the channels as its own drains left them. |
| EpochLoop.EventRuntime.ExecuteTogether | src/event_runtime.cpp:883-962 | Side by side: one batch commit after all invocations, of everything they published immediately inside the region, in order. |
| EpochLoop.EventRuntime.ExecuteNext | src/event_runtime.cpp:660-974 | A visit succeeds exactly when all its executions do and no batch is refused. |
| EpochLoop.EventRuntime.Collect | src/trigger_policy.cpp:266-353 | What a component is given is a tick, a manual run, or the answer of its trigger policy to everything its input channels held, which is taken off them. |
| EpochLoop.MessagesFlat | src/trigger_policy.cpp:266-340 | The messages of the invocations given out are those the trigger policy logs as emitted; so over a run every engine has emitted exactly what was given to its component. |
| EpochLoop.EventRuntime.Conserved | src/trigger_policy.cpp:342-353 | Conservation from end to end, per input: what the channel histories say its reader received during the run, channel by channel, is what the trigger entries drained plus what executions drained there by themselves, in order if none did; and what was drained is what is pending, was given to the component, or was dropped. |
| EpochLoop.EventRuntime.PlainReads | src/channel.cpp:616-649 | An input has a reader name of its own as soon as no input name contains a dot. |
| VisitChannels.InputsLogOn | src/trigger_policy.cpp:342-353 | What draining the inputs of a component hands to one reader is what arrived on that input, and nothing for the readers of other inputs and components. |
| VisitChannels.SharedByChannel | src/channel.cpp:616-649 | If over all channels a reader received what was drained for it and what executions took, it did so from each single channel. |
| EpochLoop.EventRuntime.Act | src/component.cpp:71-107 | One execution: its own drains, its writes to the state store, the updates it asks for, and its publications, each with exactly its effect. |
| RunEffects.PerformedChain | src/event_runtime.cpp:660-974 | What two stretches of visits did is what the visits of both did, one after the other: publications, state writes and configuration updates. |
| RunEffects.StagedForGrows | src/event_runtime.cpp:660-974 | Every publication staged by visits is on an edge of the endpoint of one of their outputs. |
| EpochLoop.EventRuntime.PublishOutputs | src/component.cpp:95-107 | Each output is staged on the edges of its endpoint, in order, up to the first edge that is neither roomy nor dropping its oldest at that moment. |
| EpochLoop.EventRuntime.IterateLoop | src/event_runtime.cpp:976-1082 | The loop ends after the first iteration that converges or is over budget, or before a cancelled one, or at its bound; never later; and leaves behind exactly what these iterations did. |
| EpochLoop.EventRuntime.RunCompositeRegion | src/event_runtime.cpp:976-1105 | Outputs of a composite region go out together after the loop has stopped, or not at all, as convergence and the partial-success policy say; a discard leaves the async queues as they were but for evictions. It fails exactly when an execution failed, a batch was refused, or its policy fails the run, and then lets no output through. |
| LoopPolicies.IterationEnds | src/event_runtime.cpp:1030-1076 | After an iteration the loop has converged, is over budget, or goes on. |
| LoopPolicies.LoopEndUnique | src/event_runtime.cpp:985-1076 | The signals of a loop settle when and why it ends. |
| LoopPolicies.LoopTests | src/event_runtime.cpp:1030-1070 | When a loop has converged, is over its budget, or has used up its iterations, in terms of its policy and the signal. |
| LoopPolicies.LoopOutcomes | src/event_runtime.cpp:1083-1110 | Outputs of a loop are let through unless it is a solver that did not converge; that one fails the run, lets them through or, by default, discards them. |
| EpochLoop.EventRuntime.RunRegions | src/event_runtime.cpp:975-1112 | Every region of the plan starts once, in order; each start satisfies the delivery property; between two starts exactly the components of the region were visited, as often as its loop policy says for the signals it took, every execution succeeded, and what was left behind is exactly what those visits did. It ends early only because a loop was cancelled, an execution failed, a batch was refused or a loop failed the run. |
| EpochLoop.EventRuntime.BeginIteration | src/event_runtime.cpp:643-657 | State, then configuration, then deferred publications: staged state becomes readable, the updates asked for are in force, all of what was ready is committed, and nothing staged before stays held. |
| EpochLoop.EventRuntime.RunIteration | src/event_runtime.cpp:590-1115 | One pass over the whole plan: deferred publications are committed by its opening only, and from then on nothing but immediate ones; it ends with only what the next epoch will commit still held, and one mark per region. |
| EpochLoop.EventRuntime.Iterate | src/event_runtime.cpp:590-1203 | When a run stops, and why: no iteration starts under a stop request; all iterations are run, or a stop was requested before one or cancelled the loop of the last region, or an iteration executed nothing and idling ends the run, or an execution, a batch, a loop or a configuration transaction failed. Under a stop when idle every other iteration executed something. |
| EpochLoop.BusyIff | src/event_runtime.cpp:1197-1200 | The count of executed invocations is unchanged exactly when the iteration executed nothing. |
| EpochLoop.EventRuntime.Run | src/event_runtime.cpp:590-1190 | Over the whole run: it stops when and for the reason that the rules say; every region start satisfies the delivery property; deferred publications arrive when the next iteration opens and not before, none of the last iteration by the end; from start to start exactly the regions of the plan ran, pass after pass, and left behind exactly what their visits did; what was committed is what the channels were sent; and for every input with a reader name of its own, what its reader received from each channel is what was drained for its component, which is pending, given to the component in a visit, or dropped. |
| TaskExecutor.ThreadedTaskExecutor.Submit | src/task_executor.cpp:226-281 | Accepted exactly when there is work, the executor is not stopping, and there is room or the oldest pending task may be dropped; the admission bound and the ledger of submissions are kept. |
| TaskExecutor.ThreadedTaskExecutor.Look | src/task_executor.cpp:372-394 | A worker starts the oldest pending task, or exits when stopping with nothing pending; tasks start in id order. |
| TaskExecutor.ThreadedTaskExecutor.Finish | src/task_executor.cpp:396-420 | The completion is queued once and counted as completed or failed. |
| TaskExecutor.ThreadedTaskExecutor.RunReady | src/task_executor.cpp:283-302 | Returns the oldest completions, each once, up to the limit; cancellation clears what is pending. |
| TaskExecutor.ThreadedTaskExecutor.CancelPending | src/task_executor.cpp:304-313 | Cancels and counts exactly the pending tasks. |
| TaskExecutor.ThreadedTaskExecutor.BeginShutdown | src/task_executor.cpp:327-346 | Stops admission; pending tasks are cancelled or left to run, by policy. |
| TaskExecutor.ThreadedTaskExecutor.PendingLeavesAStep | src/task_executor.cpp:376-394 | While a task is pending, some worker can take a step. |
| TaskExecutor.ThreadedTaskExecutor.ShutdownLeavesNothing | src/task_executor.cpp:327-346 | Once all workers have exited, nothing is pending or active and every submission is accounted for. |
| TaskExecutor.ThreadedTaskExecutor.ReturnedOnce | src/task_executor.cpp:283-302 | No task is returned twice, or while pending or running. |
| TaskExecutor.FinishInOrder | src/task_executor.cpp:396-420 | With one task running at a time, completions come in submission order. |
| LiveObserve.LiveEventStream.LoadReadIndex | src/live_observe.cpp:18-28 | A push finds the ring full exactly when the queue holds its capacity at that load. |
| LiveObserve.LiveEventStream.StoreWriteIndex | src/live_observe.cpp:29-36 | The event joins the queue when the write index is stored, not before. |
| LiveObserve.LiveEventStream.EndReadSlot | src/live_observe.cpp:38-51 | The slot read is whole and is the oldest queued event. |
| LiveObserve.LiveEventStream.StoreReadIndex | src/live_observe.cpp:38-51 | A pop removes exactly the oldest event. |
| LiveObserve.LiveEventStream.NeverSameSlot | src/live_observe.cpp:18-51 | A slot is never read while it is written. |
| LiveObserve.LiveEventStream.Run | src/live_observe.cpp:76-113 | Under every interleaving of single loads, slot accesses and stores: popped events are a prefix of accepted ones, at most capacity are queued, and local sequence = accepted + dropped + summaries. |
| LiveObserve.FullIff | src/live_observe.cpp:18-36 | The index comparison modulo the ring size says full exactly at capacity. |
| BufferPools.AlignUp | src/buffer.cpp:11-24 | The result is a multiple of the alignment, no smaller than the value and less than one alignment above it, unless it would not fit. |
| BufferPools.ChooseBucket | src/buffer.cpp:180-192 | The smallest bucket that fits, or the request when none does. |
| BufferPools.BufferPool.LoanFrame | src/buffer.cpp:133-162 | The first available buffer that is large enough, else a new one within the budget, else an empty frame; no buffer is loaned twice and all counters stay exact. |
| BufferPools.BufferPool.ReturnBuffer | src/buffer.cpp:226-245 | The buffer is available again; the guarded subtractions never saturate. |
| BufferPools.BufferPool.MarkDetached | src/buffer.cpp:204-224 | The pool no longer owns the buffer; the guarded subtractions never saturate. |
| BufferPools.LoanedFrame.Release | src/buffer.cpp:97-103 | Gives the buffer back once; an empty frame does nothing. |
| BufferPools.LoanedFrame.Detach | src/buffer.cpp:89-95 | Hands the buffer to the caller and takes it out of the pool. |
| BufferPools.LoanedFrame.MoveFrom | src/buffer.cpp:67-75 | One holder before and one after; the frame that is overwritten first gives its own buffer back. |
| Utf8.IsValidUtf8 | src/graph_io.cpp:72-116 | Accepts exactly the concatenations of encodings of Unicode scalar values, as in sections 3 and 4 of RFC 3629. |
| Utf8.HeadSound | src/graph_io.cpp:74-113 | A character the scan passes is the encoding of a scalar value: no overlong form, no surrogate, nothing above 10FFFF. |
| Utf8.HeadComplete | src/graph_io.cpp:74-113 | The encoding of every scalar value passes the scan. |
| Utf8.HeadRefused | src/graph_io.cpp:74-113 | A text whose first character the scan refuses is not valid. |

## Left out

- Reading graphs, plugins, command line, dashboards, C interface and exporters: plumbing around the modelled core.
- `validate_graph_impl` and diagnostic texts: a long list of one-branch checks that would only add easy lemmas.
- `compute_component_lifecycle_order`: the same queue-driven ordering as the region order, without priorities.
- `DeterministicTaskExecutor`: a queue that runs its tasks on the caller's thread; the threaded executor is the hard form.
- Health events, traces and metrics other than the counters used in the ledgers, including the high-watermark flag.
- Message metadata, payload contents and the copies made for them; a payload is opaque and either text or large.
- Deadline flags on delivered messages: they do not change what is delivered.
- A stop request seen between the invocations of a thread-pool visit, and the limit on a run's duration: stops are looked for before each iteration and, in loops, before each of theirs.
- Wall-clock waiting, fixed-rate lanes and worker threads inside an iteration: the invocations of a visit run one by one or side by side.
- Invocations that run side by side publish in the order of the invocations here; in `src/event_runtime.cpp:899-924` their publications may interleave, so the order inside the one batch they share is not fixed by the code.
- Lane admission: a thread-pool lane may drop invocations of a visit beyond its capacity, or fail the run over them; here all are executed.
- Updates that an execution applies to the stored configuration at once, outside the epoch boundary: they leave the component behind its stored configuration by design.
- What an execution reads with `read_latest_update` or `peek_latest`, tasks it submits, and publications from other threads during an iteration.
- Blocking, condition variables and update notification: a blocked thread is a step that is not enabled; acquire and release pairs are single sequentially consistent steps.
- Widths of 64-bit sequence numbers, counters and timestamps: they are unbounded here.
- One clock reading serves a whole visit and a whole bus call; the code reads the clock at each invocation and once per published message.
- Trigger entries of other components: one engine object stands for one component's entries, with the capacities of its ports as a parameter.
- `read_latest_update_for_component_port`, `snapshot_for_component_port` and `consume_for_component`: loops over the same per-channel reads.
- `async_in_flight_count`: it mixes per-channel and global values in the code and is not a ledger.
- Resizing a buffer while it is pooled or loaned, and moving a whole pool: sizes are fixed here.
- A router or runtime without its optional stores is not modelled, except a router without a bus.
- EpochLoop.EventRuntime.Run: for a run that ends in an error it says why it ended, but not what its last region left behind or had committed, because the runtime stops there.
- ConfigTransactions.ApplyConfigTransaction: immediate updates are not part of it, because they change the store without applying to the component.
