/** The compiler and the epoch loop together: along the plan, data crosses regions within one iteration. */
module PlannedRun {
  import opened Ids
  import opened Messages
  import opened Digraph
  import opened GraphSpecs
  import opened GraphCompiler
  import opened RegionOrder
  import opened Scc
  import opened Staging
  import opened RunHistory
  import opened ChannelBatch
  import opened ChannelBus
  import opened PublicationRouter
  import opened LoopPolicies
  import opened RunEffects
  import opened EpochLoop
  import Channels
  import R = ReaderCursors
  import C = ConfigTransactions
  import S = StateStores
  import T = TriggerEngine

  /** The region at this mark is the plan's region number i. */
  ghost predicate StartsRegion(plan: Plan, m: Mark, i: nat) {
    m.position < |plan.order| && i < |plan.regions| && plan.order[m.position] == plan.regions[i].id
  }

  /** The runtime's edges are the graph's, and each declares a valid kind. */
  ghost predicate WiredAs(graph: GraphSpec, edges: seq<ChannelEdge>) {
    |edges| == |graph.edges| && forall i :: 0 <= i < |edges| ==> SameEdge(graph.edges[i], edges[i])
  }

  predicate SameEdge(e: EdgeSpec, c: ChannelEdge) {
    c.id == e.id && c.from == e.from && c.to == e.to && c.kind == e.kind && e.hasKind && e.invalidKind == ""
  }

  /** The regions of a plan, in its order, with the policies declared for their loops. */
  ghost predicate OrderRight(plan: Plan, policies: Id -> LoopPolicy, order: seq<RunRegion>) {
    |order| == |plan.order| && forall k :: 0 <= k < |order| ==> OrderedRight(plan, policies, order[k], plan.order[k])
  }

  ghost predicate OrderedRight(plan: Plan, policies: Id -> LoopPolicy, region: RunRegion, id: Id) {
    && region.id == id && region.policy == policies(id)
    && exists i :: 0 <= i < |plan.regions| && plan.regions[i].id == id &&
        region.components == plan.regions[i].components && region.isLoop == plan.regions[i].isLoop
  }

  function RegionOf(region: Region, policies: Id -> LoopPolicy): RunRegion {
    RunRegion(region.id, region.components, region.isLoop, policies(region.id))
  }

  /** No port name contains a dot, so a component cannot publish under another one's name. */
  ghost predicate PlainPorts(world: World) {
    forall v: nat, i: nat, given: T.Invocation, o :: o in world.execute(v, i, given).outputs ==> '.' !in o.port
  }

  lemma {:induction false} ComponentOfPort(component: Id, port: string)
    requires '.' !in port
    ensures AfterLastDot(component + "." + port) == |component| + 1
    ensures ComponentOf(component + "." + port) == component
  {
    var endpoint := component + "." + port;
    if port == "" {
      assert endpoint[|endpoint| - 1] == '.';
    } else {
      assert port[|port| - 1] in port;
      assert endpoint[..|endpoint| - 1] == component + "." + port[..|port| - 1];
      ComponentOfPort(component, port[..|port| - 1]);
    }
    assert endpoint[..|component|] == component;
  }

  /** An edge in the routing table starts at the component of the endpoint that lists it. */
  lemma EdgeAtEndpoint(edges: seq<ChannelEdge>, table: RoutingTable, endpoint: Id, e: RoutedEdge)
    requires TableBuilt(edges, table) && endpoint in table && e in table[endpoint]
    ensures e.source == ComponentOf(endpoint) && exists i :: 0 <= i < |edges| && e == RouteOf(edges[i])
  {
    hide ComponentOf;
    assert (if endpoint in table then table[endpoint] else []) == RoutesFrom(edges, endpoint);
    RoutesStartThere(edges, endpoint);
    RoutesFromEdges(edges, endpoint);
  }

  lemma {:induction false} RoutesStartThere(edges: seq<ChannelEdge>, endpoint: Id)
    ensures forall r :: r in RoutesFrom(edges, endpoint) ==> r.source == ComponentOf(endpoint)
  {
    hide ComponentOf;
    if edges != [] {
      RoutesStartThere(edges[..|edges| - 1], endpoint);
    }
  }

  /** What an execution of a visited component put out carries that component's name. */
  ghost predicate PutOutBy(component: Id, o: Output) {
    exists port: string :: '.' !in port && o.endpoint == component + "." + port
  }

  lemma {:induction false} OutputsAreVisitors(world: World, first: nat, visits: seq<Visit>)
    requires PlainPorts(world)
    ensures forall o :: o in OutputsOf(VisitsDone(world, first, visits)) ==> exists v :: v in visits && PutOutBy(v.component, o)
  {
    hide PutOutBy, Sourced;
    if visits != [] {
      var n := |visits| - 1;
      var front, visit := visits[..n], visits[n];
      assert visits == front + [visit];
      OutputsAreVisitors(world, first, front);
      var done := VisitDone(world, first + n, visit);
      OutputsConcat(VisitsDone(world, first, front), done);
      VisitOutputs(world, first + n, visit, |done|);
      assert done[..|done|] == done;
      forall o | o in OutputsOf(VisitsDone(world, first, visits)) ensures exists v :: v in visits && PutOutBy(v.component, o) {
        if o in OutputsOf(VisitsDone(world, first, front)) {
          var v :| v in front && PutOutBy(v.component, o);
          assert v in visits;
        } else {
          assert visit in visits && PutOutBy(visit.component, o);
        }
      }
    }
  }

  lemma {:induction false} VisitOutputs(world: World, v: nat, visit: Visit, k: nat)
    requires PlainPorts(world) && k <= |VisitDone(world, v, visit)|
    ensures forall o :: o in OutputsOf(VisitDone(world, v, visit)[..k]) ==> PutOutBy(visit.component, o)
  {
    hide PutOutBy;
    if k > 0 {
      var done := VisitDone(world, v, visit);
      VisitOutputs(world, v, visit, k - 1);
      assert done[..k][..k - 1] == done[..k - 1];
      forall o | o in Sourced(visit.component, done[k - 1].execution.outputs) ensures PutOutBy(visit.component, o) {
        SourcedBy(world, v, k - 1, visit, o);
      }
    }
  }

  lemma SourcedBy(world: World, v: nat, i: nat, visit: Visit, o: Output)
    requires PlainPorts(world) && i < |visit.given|
    requires o in Sourced(visit.component, world.execute(v, i, visit.given[i]).outputs)
    ensures PutOutBy(visit.component, o)
  {
    var emissions := world.execute(v, i, visit.given[i]).outputs;
    var n :| 0 <= n < |emissions| && Sourced(visit.component, emissions)[n] == o;
    assert emissions[n] in emissions;
  }

  /** Whatever is staged between two marks was published by a component of the region that ran there. */
  lemma StagedByRegion(world: World, order: seq<RunRegion>, edges: seq<ChannelEdge>, table: RoutingTable, trace: seq<Mark>, k: nat, n: nat)
    requires Follow(world, order, table, trace) && k + 1 < |trace| && TableBuilt(edges, table) && PlainPorts(world)
    requires |trace[k].ledger.staged| <= n < |trace[k + 1].ledger.staged|
    ensures trace[k].position < |order|
    ensures trace[k + 1].ledger.staged[n].edge.source in order[trace[k].position].components
    ensures exists i :: 0 <= i < |edges| && trace[k + 1].ledger.staged[n].edge == RouteOf(edges[i])
  {
    hide StagedFor, VisitedFrom, RoundRight, Repeat, VisitsDone, OutputsOf, TableBuilt, PlainPorts, C.Overlaid, PendingAfter, WritesOf,
      UpdatesOf;
    var m, p := trace[k], trace[k + 1].ledger.staged[n];
    assert Linked(world, order, table, trace[k], trace[k + 1].iteration, trace[k + 1].position, trace[k + 1].trail,
                  trace[k + 1].ledger, false);
    var t: Trail :| RegionRan(world, table, order[m.position], m, t, false) && t.staged == trace[k + 1].trail.staged;
    var region := order[m.position];
    var rounds: nat :| RoundRight(world, region, m.trail.signals, rounds, false) && VisitedFrom(m.trail, t, Repeat(region.components, rounds));
    var visits := t.log[|m.trail.log|..];
    var outputs := OutputsOf(VisitsDone(world, |m.trail.log|, visits));
    StagedForGrows(Start(m.stores, |m.trail.staged|), m.trail.staged, t.staged, table, outputs);
    assert Traceable(table, outputs, p);
    var o :| o in outputs && StagedOn(table, o, p.edge);
    OutputsAreVisitors(world, |m.trail.log|, visits);
    var v :| v in visits && PutOutBy(v.component, o);
    VisitorListed(m.trail, t, Repeat(region.components, rounds), v);
    RepeatIn(region.components, rounds);
    EdgeAtEndpoint(edges, table, o.endpoint, p.edge);
    PutOutSource(v.component, o);
  }

  lemma VisitorListed(a: Trail, b: Trail, components: seq<Id>, v: Visit)
    requires VisitedFrom(a, b, components) && v in b.log[|a.log|..]
    ensures v.component in components
  {
    var visits := b.log[|a.log|..];
    var i :| 0 <= i < |visits| && visits[i] == v;
    assert Visited(visits)[i] == v.component;
  }

  lemma PutOutSource(component: Id, o: Output)
    requires PutOutBy(component, o)
    ensures ComponentOf(o.endpoint) == component
  {
    hide ComponentOf;
    var port: string :| '.' !in port && o.endpoint == component + "." + port;
    ComponentOfPort(component, port);
  }

  /** Publication number n was staged while region i ran, on an immediate edge into region j, and region j starts
      at mark t of the same iteration. */
  ghost predicate Crossing(plan: Plan, trace: seq<Mark>, k: nat, t: nat, i: nat, j: nat, n: nat) {
    && k + 1 < |trace| && t < |trace| && trace[k].iteration == trace[t].iteration && i != j
    && StartsRegion(plan, trace[k], i) && StartsRegion(plan, trace[t], j)
    && |trace[k].ledger.staged| <= n < |trace[k + 1].ledger.staged|
    && var e := trace[k + 1].ledger.staged[n].edge; e.kind == Immediate && e.target in plan.regions[j].components
  }

  ghost predicate ArrivesFirst(trace: seq<Mark>, k: nat, t: nat, n: nat) {
    && k < t < |trace| && n < |trace[t].ledger.staged| && n < |trace[k + 1].ledger.staged|
    && trace[t].ledger.staged[n] == trace[k + 1].ledger.staged[n]
    && (trace[t].ledger.staged[n] in trace[t].ledger.committed || trace[t].ledger.staged[n] in trace[t].ledger.discarded)
  }

  /** In a run along a compiled plan, whatever crosses from one region to another over an immediate edge has been
      committed when the other region starts in the same iteration, unless its loop discarded it. */
  lemma CrossingArrivesFirst(graph: GraphSpec, plan: Plan, policies: Id -> LoopPolicy, order: seq<RunRegion>, edges: seq<ChannelEdge>,
                             table: RoutingTable, world: World, trace: seq<Mark>, k: nat, t: nat, i: nat, j: nat, n: nat)
    requires PlanRight(graph, plan) && DistinctRegionIds(graph) && OrderRight(plan, policies, order)
    requires WiredAs(graph, edges) && TableBuilt(edges, table)
    requires TraceRight(trace) && Follow(world, order, table, trace) && PlainPorts(world) && Crossing(plan, trace, k, t, i, j, n)
    ensures ArrivesFirst(trace, k, t, n)
  {
    hide PlanRight, MarkRight, Edge, ImmediateEdges, Follow, TableBuilt, WiredAs, TraceRight, DistinctRegionIds;
    var p := trace[k + 1].ledger.staged[n];
    StagedByRegion(world, order, edges, table, trace, k, n);
    PlanDistinct(graph, plan);
    RegionAt(graph, plan, policies, order, trace[k].position, i);
    CrossingEdge(graph, plan, edges, p.edge, i, j);
    ProducersRunFirst(graph, plan, i, j, p.edge.source, p.edge.target);
    var a, b :| 0 <= a < b < |plan.order| && plan.order[a] == plan.regions[i].id && plan.order[b] == plan.regions[j].id;
    assert a == trace[k].position && b == trace[t].position;
    MarksAdvance(trace, k, t);
    StagedStays(trace, k + 1, t, n);
    ImmediateArrivesFirst(trace, t, p);
  }

  /** The region that runs at a position is the one the plan names there. */
  lemma RegionAt(graph: GraphSpec, plan: Plan, policies: Id -> LoopPolicy, order: seq<RunRegion>, position: nat, i: nat)
    requires PlanRight(graph, plan) && DistinctRegionIds(graph) && OrderRight(plan, policies, order)
    requires position < |order| && i < |plan.regions|
    requires plan.order[position] == plan.regions[i].id
    ensures order[position].components == plan.regions[i].components
  {
    hide PlanRight, DistinctRegionIds;
    assert OrderedRight(plan, policies, order[position], plan.order[position]);
    NamesDistinct(graph, plan);
    var x :| 0 <= x < |plan.regions| && plan.regions[x].id == plan.order[position] && order[position].components == plan.regions[x].components;
    assert Names(plan.regions)[x] == Names(plan.regions)[i];
  }

  lemma NamesDistinct(graph: GraphSpec, plan: Plan)
    requires PlanRight(graph, plan) && DistinctRegionIds(graph)
    ensures Distinct(Names(plan.regions))
  {
    hide SccsInOrder, RegionsRight, EdgesRight, RanksRight, IsPlan, Names;
  }

  lemma CrossingEdge(graph: GraphSpec, plan: Plan, edges: seq<ChannelEdge>, e: RoutedEdge, i: nat, j: nat)
    requires PlanRight(graph, plan) && WiredAs(graph, edges) && e.kind == Immediate && i < |plan.regions| && j < |plan.regions|
    requires e.source in plan.regions[i].components && e.target in plan.regions[j].components
    requires exists x :: 0 <= x < |edges| && e == RouteOf(edges[x])
    ensures Edge(ImmediateGraph(graph), e.source, e.target)
  {
    hide RegionsRight, EdgesRight, RanksRight, IsPlan, ComponentOf, SccsInOrder, ImmediateEdges, Edge;
    RegionMembers(graph, plan.sccs, plan.regions);
    RegionKnown(graph, plan, i, e.source);
    RegionKnown(graph, plan, j, e.target);
    var x :| 0 <= x < |edges| && e == RouteOf(edges[x]);
    assert SameEdge(graph.edges[x], edges[x]);
    assert Joins(graph.edges[x], e.source, e.target);
    EdgeIff(Known(graph), graph.edges, e.source, e.target);
  }

  lemma RegionKnown(graph: GraphSpec, plan: Plan, i: nat, c: Id)
    requires RegionsRight(graph.loops, plan.sccs, plan.regions) && IsPartition(Known(graph), plan.sccs)
    requires i < |plan.regions| && c in plan.regions[i].components
    ensures c in Known(graph)
  {
    hide RegionsRight;
    RegionComponents(graph.loops, plan.sccs, plan.regions, i);
  }

  /** Within an iteration, marks come in the order of their regions in the plan. */
  lemma MarksAdvance(trace: seq<Mark>, j: nat, k: nat)
    requires TraceRight(trace) && j < |trace| && k < |trace| && trace[j].iteration == trace[k].iteration
    ensures j < k <==> trace[j].position < trace[k].position
  {
    hide MarkRight;
    if j < k {
      assert Follows(trace[j], trace[k]);
    } else if k < j {
      assert Follows(trace[k], trace[j]);
    }
  }

  lemma PlanDistinct(graph: GraphSpec, plan: Plan)
    requires PlanRight(graph, plan)
    ensures Distinct(plan.order)
  {
    hide SccsInOrder, RegionsRight, EdgesRight, RanksRight, Topological, GreedyOrder;
  }

  lemma StagedStays(trace: seq<Mark>, j: nat, k: nat, n: nat)
    requires TraceRight(trace) && j <= k < |trace| && n < |trace[j].ledger.staged|
    ensures n < |trace[k].ledger.staged| && trace[k].ledger.staged[n] == trace[j].ledger.staged[n]
  {
    hide MarkRight;
    if j < k {
      assert Follows(trace[j], trace[k]);
    }
  }

  // ----- from the graph to the end of the run

  /** Every publication that crosses from one region of the plan to another arrives first. */
  ghost predicate AllArriveFirst(plan: Plan, trace: seq<Mark>) {
    forall k: nat, t: nat, i: nat, j: nat, n: nat :: Crossing(plan, trace, k, t, i, j, n) ==> ArrivesFirst(trace, k, t, n)
  }

  lemma RunArrivesFirst(graph: GraphSpec, plan: Plan, policies: Id -> LoopPolicy, order: seq<RunRegion>, edges: seq<ChannelEdge>,
                        table: RoutingTable, world: World, trace: seq<Mark>)
    requires PlanRight(graph, plan) && DistinctRegionIds(graph) && OrderRight(plan, policies, order)
    requires WiredAs(graph, edges) && TableBuilt(edges, table)
    requires TraceRight(trace) && Follow(world, order, table, trace)
    ensures PlainPorts(world) ==> AllArriveFirst(plan, trace)
  {
    hide *;
    if PlainPorts(world) {
      forall k: nat, t: nat, i: nat, j: nat, n: nat | Crossing(plan, trace, k, t, i, j, n) ensures ArrivesFirst(trace, k, t, n) {
        CrossingArrivesFirst(graph, plan, policies, order, edges, table, world, trace, k, t, i, j, n);
      }
      Gathered(plan, trace);
    }
  }

  lemma Gathered(plan: Plan, trace: seq<Mark>)
    requires forall k: nat, t: nat, i: nat, j: nat, n: nat :: Crossing(plan, trace, k, t, i, j, n) ==> ArrivesFirst(trace, k, t, n)
    ensures AllArriveFirst(plan, trace)
  {
  }

  /** Looks up the regions in plan order. */
  method PlannedOrder(graph: GraphSpec, plan: Plan, policies: Id -> LoopPolicy) returns (order: seq<RunRegion>)
    requires PlanRight(graph, plan)
    ensures OrderRight(plan, policies, order)
  {
    hide OrderedRight, PlanRight;
    order := [];
    for k := 0 to |plan.order|
      invariant |order| == k && forall n :: 0 <= n < k ==> OrderedRight(plan, policies, order[n], plan.order[n])
    {
      var region := FindRegion(graph, plan, policies, plan.order[k]);
      order := order + [region];
    }
  }

  method FindRegion(graph: GraphSpec, plan: Plan, policies: Id -> LoopPolicy, id: Id) returns (region: RunRegion)
    requires PlanRight(graph, plan) && id in plan.order
    ensures OrderedRight(plan, policies, region, id)
  {
    hide SccsInOrder, RegionsRight, EdgesRight, RanksRight, Topological, GreedyOrder;
    assert id in Elements(plan.order) && id in plan.graph.ids;
    var n :| 0 <= n < |Names(plan.regions)| && Names(plan.regions)[n] == id;
    var i := 0;
    while plan.regions[i].id != id
      invariant 0 <= i <= n
      decreases n - i
    {
      i := i + 1;
    }
    region := RegionOf(plan.regions[i], policies);
  }

  /** What each channel was ever sent are the payloads and timestamps of the committed publications on its edge, in
      order. */
  ghost predicate SentIsCommitted(bus: RuntimeChannelBus, l: Ledger)
    reads bus
  {
    forall c :: c in bus.history ==> Sendings(bus.history[c]) == Delivery(l.committed, c)
  }

  /** Whatever a reader was given by a channel was committed to it, with the same payload and timestamp. */
  lemma ReceivedWasCommitted(bus: RuntimeChannelBus, l: Ledger, config: Channels.Config, c: Id, r: Id, m: Message)
    requires SentIsCommitted(bus, l) && c in bus.history && m in R.Received(config, bus.history[c], true, r)
    ensures exists p :: p in l.committed && p.edge.channel == c && p.payload == m.payload && p.stamp == m.stamp
  {
    hide R.Received;
    R.NothingMadeUp(config, bus.history[c], true, r);
    var k: nat :| k < |bus.history[c]| && R.PublishedBy(config, bus.history[c], k, m);
    SendingListed(bus.history[c], k);
    DeliveredFrom(l.committed, c, (m.payload, m.stamp));
  }

  lemma {:induction false} SendingListed(h: seq<R.Step>, k: nat)
    requires k < |h| && h[k].Publish?
    ensures (h[k].payload, h[k].stamp) in Sendings(h)
  {
    if k < |h| - 1 {
      SendingListed(h[..|h| - 1], k);
    }
  }

  lemma {:induction false} DeliveredFrom(batch: seq<Routed>, c: Id, x: Sending)
    requires x in Delivery(batch, c)
    ensures exists p :: p in batch && p.edge.channel == c && (p.payload, p.stamp) == x
  {
    var front, last := batch[..|batch| - 1], batch[|batch| - 1];
    assert batch == front + [last];
    if x in Delivery(front, c) {
      DeliveredFrom(front, c, x);
      var p :| p in front && p.edge.channel == c && (p.payload, p.stamp) == x;
      assert p in batch;
    } else {
      assert last in batch;
    }
  }

  lemma SentFromNothing(bus: RuntimeChannelBus, h: Histories, l: Ledger, l': Ledger)
    requires Carried(h, bus.history, l, l') && l.committed == [] && forall c :: c in h ==> h[c] == []
    ensures SentIsCommitted(bus, l')
  {
    hide Carried;
    CarriedFromNothing(h, bus.history, l, l');
  }

  lemma CarriedFromNothing(h: Histories, h': Histories, l: Ledger, l': Ledger)
    requires Carried(h, h', l, l') && l.committed == [] && forall c :: c in h ==> h[c] == []
    ensures forall c :: c in h' ==> Sendings(h'[c]) == Delivery(l'.committed, c)
  {
    assert l'.committed[0..] == l'.committed;
    forall c | c in h' ensures Sendings(h'[c]) == Delivery(l'.committed, c) {
      assert Sendings(h[c]) == [];
      assert [] + Delivery(l'.committed, c) == Delivery(l'.committed, c);
    }
  }

  /** Compiles a graph and, if it is right, runs its plan on a new bus and router. Data crosses from region to region
      within one iteration, and the channels were sent exactly what was committed. */
  method CompileAndRun(graph: GraphSpec, edges: seq<ChannelEdge>, policies: Id -> LoopPolicy, world: World,
                       engines: map<Id, T.TriggerPolicyEngine>, states: S.RuntimeStateStore, store: C.ConfigSnapshotStore,
                       components: C.Components, iterations: nat, untilIdle: bool, ghost past: seq<S.Step>)
    returns (errors: seq<CompileError>, plan: Plan, runtime: EventRuntime?, reason: StopReason, completed: nat, ghost starts: seq<nat>)
    requires DistinctRegionIds(graph) && WiredAs(graph, edges)
    requires forall i, j :: 0 <= i < j < |edges| ==> edges[i].id != edges[j].id
    requires forall id :: id in engines ==> engines[id].Valid() && Unused(engines[id])
    requires forall a, b :: a in engines && b in engines && a != b ==> engines[a] != engines[b]
    requires states.entries == S.Run(past) && store.Valid() && C.NoneShared(components) && C.InStep(store, components)
    modifies engines.Values, states, store, components.Values
    ensures errors == [] <==> WellDeclared(graph)
    ensures errors == [] <==> runtime != null
    ensures errors != [] ==> completed == 0 && reason == RunError && starts == []
    ensures runtime != null ==> runtime.Sane() && PlanRight(graph, plan) && OrderRight(plan, policies, runtime.order)
    ensures runtime != null ==> TraceRight(runtime.trace) && Follow(world, runtime.order, runtime.router.table, runtime.trace)
    ensures runtime != null && PlainPorts(world) ==> AllArriveFirst(plan, runtime.trace)
    ensures runtime != null ==> DeferredRight(runtime.trace) && runtime.Conserving()
    ensures runtime != null && !reason.RunError? && runtime.trace != [] ==>
      NotYet(runtime.trace[|runtime.trace| - 1].base, runtime.router.ledger)
    ensures runtime != null ==> runtime.router.bus != null && SentIsCommitted(runtime.router.bus, runtime.router.ledger)
    ensures runtime != null ==>
      runtime.StoppedFor(reason, completed, starts, iterations, untilIdle, AtFirst(past, old(store.configs), old(store.pending)))
    ensures runtime != null && (!reason.RunError? || C.KeepsStored(store.configs, components)) ==> C.InStep(store, components)
    ensures runtime != null ==> completed * |plan.order| <= |runtime.trace| <= completed * |plan.order| + |plan.order|
  {
    hide PlanRight, OrderRight, WellDeclared, WiredAs, DistinctRegionIds, TableBuilt, EventRuntime.Sane, TraceRight, Follow, Begins,
      AllArriveFirst, DeferredRight, NotYet, EventRuntime.Conserving, EventRuntime.StoppedFor, C.KeepsStored, SentIsCommitted, Carried,
      S.Run, C.ConfigSnapshotStore.Valid, C.NoneShared, C.InStep, T.TriggerPolicyEngine.Valid, PlainPorts;
    errors, plan := CompileGraph(graph);
    runtime, reason, completed, starts := null, RunError, 0, [];
    if errors != [] {
      return;
    }
    var order := PlannedOrder(graph, plan, policies);
    OrderSize(plan, policies, order);
    runtime := Assemble(order, edges, world, engines, states, store, components, past);
    ghost var sent, l := runtime.router.Sent(), runtime.router.ledger;
    reason, completed, starts := runtime.Run(iterations, untilIdle);
    RunArrivesFirst(graph, plan, policies, order, edges, runtime.router.table, world, runtime.trace);
    SentFromNothing(runtime.router.bus, sent, l, runtime.router.ledger);
  }

  /** Nothing has been visited or staged yet. */
  ghost function AtFirst(past: seq<S.Step>, configs: C.Configs, pending: C.Configs): Trail {
    Trail([], [], past, configs, pending, 0)
  }

  lemma OrderSize(plan: Plan, policies: Id -> LoopPolicy, order: seq<RunRegion>)
    requires OrderRight(plan, policies, order)
    ensures |order| == |plan.order|
  {
  }

  /** The trigger entries are new: nothing has been drained or emitted. */
  ghost predicate Unused(engine: T.TriggerPolicyEngine)
    reads engine
  {
    engine.emitted == [] && forall p :: p in engine.inputs ==> p in engine.drained && engine.drained[p] == []
  }

  /** A runtime with a new bus and a new router, before its first iteration. */
  method Assemble(order: seq<RunRegion>, edges: seq<ChannelEdge>, world: World, engines: map<Id, T.TriggerPolicyEngine>,
                  states: S.RuntimeStateStore, store: C.ConfigSnapshotStore, components: C.Components, ghost past: seq<S.Step>)
    returns (runtime: EventRuntime)
    requires forall i, j :: 0 <= i < j < |edges| ==> edges[i].id != edges[j].id
    requires forall id :: id in engines ==> engines[id].Valid() && Unused(engines[id])
    requires forall a, b :: a in engines && b in engines && a != b ==> engines[a] != engines[b]
    requires states.entries == S.Run(past) && store.Valid()
    ensures fresh(runtime) && fresh(runtime.router) && runtime.router.bus != null && fresh(runtime.router.bus)
    ensures runtime.order == order && runtime.world == world && runtime.engines == engines
    ensures runtime.states == states && runtime.store == store && runtime.components == components
    ensures runtime.Sane() && runtime.Between() && runtime.trace == [] && TableBuilt(edges, runtime.router.table)
    ensures runtime.Left() == AtFirst(past, store.configs, store.pending)
    ensures runtime.router.ledger.committed == [] && forall c :: c in runtime.router.bus.history ==> runtime.router.bus.history[c] == []
  {
    hide TableBuilt, RuntimePublicationRouter.Valid, RuntimeChannelBus.Valid, S.Run, C.ConfigSnapshotStore.Valid,
      T.TriggerPolicyEngine.Valid, ChannelsBuilt, SourcesBuilt, ComponentsBuilt;
    var bus := new RuntimeChannelBus(edges);
    var router := new RuntimePublicationRouter(bus, edges);
    runtime := new EventRuntime(router, order, world, engines, states, store, components, past);
    assert router.Stores() == Stages([], [], [], []);
  }
}
