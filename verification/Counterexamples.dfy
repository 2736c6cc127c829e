/** Runs in which the router does not do what one might expect of it. When exactly it does is proved with it: see
    `FanOutAtomic`, `DiscardRestores` and `RefusalLeaves`. */
module Counterexamples {
  import opened Ids
  import opened Messages
  import opened GraphSpecs
  import opened Channels
  import opened ChannelBatch
  import opened ChannelBus
  import opened Staging
  import opened PublicationRouter

  function PolicyOf(overflow: string, maxInflight: int): EdgePolicy {
    EdgePolicy("queue", 1, overflow, "shared_view", 0, "single", maxInflight)
  }

  /** A fan-out that is torn: with one publication in flight on an async edge that refuses, the second publication
      is refused, yet the edge before the full one keeps it. */
  method FanOutTears(payload: Payload) returns (router: RuntimePublicationRouter, first: bool, second: bool)
    ensures router.Valid() && first && !second
    ensures |router.ledger.staged| == 3 && router.ledger.staged[2].edge.channel == "plain"
    ensures router.ledger.staged[2] in router.immediate
  {
    hide RuntimePublicationRouter.Valid, ComponentOf, Pending, TableBuilt, EdgesIn, QueueAfter, Balanced, WellPlaced, AllAsync,
      OfChannel, Joined, Fenced;
    var plain := ChannelEdge("plain", "a.out", "b.in", Immediate, PolicyOf("fail_fast", 0));
    var full := ChannelEdge("full", "a.out", "c.in", Async, PolicyOf("fail_fast", 1));
    router := new RuntimePublicationRouter(null, [plain, full]);
    TwoRoutes(plain, full, router.table);
    ghost var edges := [RouteOf(plain), RouteOf(full)];
    NothingPending();
    first := router.PublishFrom("a.out", Some(payload), None);
    ghost var s := router.ledger.staged;
    ghost var waiting := Routed(1, edges[1], payload, None);
    assert s == [Routed(0, edges[0], payload, None), waiting] == s[0..];
    QueueOfTwo(s[0], waiting, "full");
    assert Pending(router.Stores(), "full") == [waiting];
    assert !Willing(router.Stores(), edges[1]);
    second := router.PublishFrom("a.out", Some(payload), None);
    assert |router.ledger.staged| == 3 && router.ledger.staged[2] in router.ledger.staged;
    router.WhatIsValid();
    StillImmediate(router.Stores(), router.ledger, {}, router.ledger.staged[2]);
  }

  const SINGLE := ChannelEdge("single", "a.out", "b.in", Immediate, PolicyOf("fail_fast", 0))

  /** A refusal that is felt: a single full channel refuses its second publication and still numbers it. */
  method RefusalCounts(payload: Payload) returns (bus: RuntimeChannelBus, first: bool, second: bool, ghost before: ChannelMap)
    ensures bus.Valid() && first && !second && "single" in before && "single" in bus.channels
    ensures bus.channels["single"].next == before["single"].next + 1 && !AllSameContents(before, bus.channels)
  {
    hide RuntimeChannelBus.Valid, ChannelsBuilt, SourcesBuilt, ComponentsBuilt, FannedOut, PolicyOf, AllSound, OneDeep, AllSameContents,
      ConfigOf;
    bus := new RuntimeChannelBus([SINGLE]);
    SingleWired(SINGLE, bus.channels, bus.ports, bus.sources);
    SingleConfig();
    BusSound(bus);
    ghost var start := bus.channels;
    first := bus.PublishFrom("a.out", Some(payload), 0, None);
    SingleTakes(start, payload, first, bus.channels);
    before := bus.channels;
    second := bus.PublishFrom("a.out", Some(payload), 0, None);
    SingleRefuses(before, payload, second, bus.channels);
  }

  lemma SingleConfig()
    ensures OneDeep(ConfigOf(SINGLE))
  {
  }

  lemma BusSound(bus: RuntimeChannelBus)
    requires bus.Valid()
    ensures AllSound(bus.channels)
  {
  }

  lemma SingleWired(e: ChannelEdge, channels: ChannelMap, ports: map<Id, string>, sources: Routes)
    requires ChannelsBuilt([e], channels, ports) && SourcesBuilt([e], sources)
    ensures e.id in channels && channels[e.id] == Opened(ConfigOf(e)) && e.from in sources && sources[e.from] == [e.id]
  {
    hide Opened, ConfigOf, PortOf, IdsFrom;
    SingleListed(e);
    assert e in [e];
    var x :| x in [e] && OpenedFor(x, e.id, channels[e.id], ports[e.id]);
    assert Route(sources, e.from) == IdsFrom([e], e.from);
  }

  lemma SingleListed(e: ChannelEdge)
    ensures IdsFrom([e], e.from) == [e.id]
  {
    assert [e][..0] == [];
  }

  /** The policy of a queue of one message that refuses on overflow. */
  predicate OneDeep(config: Config) {
    !config.LatestStyle() && config.Rejecting() && config.capacity == 1 && config.copyPolicy == SharedView
  }

  lemma SingleTakes(before: ChannelMap, payload: Payload, accepted: bool, after: ChannelMap)
    requires AllSound(before) && "single" in before && OneDeep(before["single"].config) && before["single"].queue == []
    requires FannedOut(before, ["single"], payload, None, 0, accepted, after)
    ensures accepted && "single" in after && OneDeep(after["single"].config) && |after["single"].queue| == 1
  {
    hide AllSound;
    SingleFits(before, ["single"], payload, None, 0);
  }

  lemma SingleRefuses(before: ChannelMap, payload: Payload, accepted: bool, after: ChannelMap)
    requires "single" in before && OneDeep(before["single"].config) && |before["single"].queue| == 1
    requires FannedOut(before, ["single"], payload, None, 0, accepted, after)
    ensures !accepted && "single" in after && after["single"].next == before["single"].next + 1 && !AllSameContents(before, after)
  {
    var items := FanOut(["single"], payload, None);
    assert items == [Item("single", payload, None)] && items[..0] == [];
    assert Count(items, items[0].channel) == 1;
    assert !accepted;
    RefusalLeaves(before, ["single"], payload, None, 0, after);
  }

  const FULL := ChannelEdge("full", "a.out", "b.in", Async, PolicyOf("drop_oldest", 1))

  /** A discard that does not restore: while the region is open, its second publication evicts the one that was
      pending when it was opened, and the discard then drops the second one too. */
  method DiscardForgets(payload: Payload) returns (router: RuntimePublicationRouter, ghost before: Stages)
    ensures router.Valid() && |Pending(before, "full")| == 1 && Pending(router.Stores(), "full") == []
    ensures OfChannel(router.ledger.overwritten, "full") == Pending(before, "full")
    ensures |OfChannel(router.ledger.discarded, "full")| == 1
  {
    hide RuntimePublicationRouter.Valid, Pending, OfChannel, EdgesIn, FannedTo;
    router := OpenWithOnePending(payload);
    before := router.Stores();
    ghost var l := router.ledger;
    var second := router.PublishFrom("a.out", Some(payload), None);
    TakenAlone(before, l, router.Stores(), router.ledger, RouteOf(FULL), payload, second);
    ghost var q, gone := Pending(router.Stores(), "full"), router.ledger.overwritten[|l.overwritten|..];
    assert |q| == 1 && router.ledger.overwritten == l.overwritten + gone;
    OfChannelConcat(l.overwritten, gone, "full");
    assert OfChannel(gone, "full") == (OfChannel(gone, "full") + q)[..1] == Pending(before, "full");
    assert [] + router.composite == router.composite;
    router.DiscardCompositeRegionOutputs();
  }

  method OpenWithOnePending(payload: Payload) returns (router: RuntimePublicationRouter)
    ensures router.Valid() && fresh(router) && "a.out" in router.table && router.table["a.out"] == [RouteOf(FULL)]
    ensures |Pending(router.Stores(), "full")| == 1 && router.composite == []
    ensures OfChannel(router.ledger.overwritten, "full") == [] && router.ledger.discarded == []
    ensures router.opening == Some(Opening(router.Stores(), |router.ledger.overwritten|))
    ensures Leaves(RouteOf(FULL), EdgesIn(router.table), router.active)
  {
    hide RuntimePublicationRouter.Valid, ComponentOf, Pending, OfChannel, EdgesIn, FannedTo, Leaves, PolicyOf, RouteOf;
    FullRoute();
    router := NewRouter();
    NothingPending();
    ghost var st, l := router.Stores(), router.ledger;
    var first := router.PublishFrom("a.out", Some(payload), None);
    TakenAlone(st, l, router.Stores(), router.ledger, RouteOf(FULL), payload, first);
    NoneLeft(router.ledger.overwritten, Pending(router.Stores(), "full"), "full");
    router.WhatIsValid();
    router.BeginCompositeRegion(["a"]);
    Ends(router.table, router.active);
  }

  lemma NoneLeft(gone: seq<Routed>, q: seq<Routed>, c: Id)
    requires |OfChannel(gone[0..], c) + q| == |q|
    ensures OfChannel(gone, c) == []
  {
    hide OfChannel;
    assert gone[0..] == gone;
  }

  method NewRouter() returns (router: RuntimePublicationRouter)
    ensures router.Valid() && fresh(router) && "a.out" in router.table && router.table["a.out"] == [RouteOf(FULL)]
    ensures router.Stores() == Stages([], [], [], []) && router.active == {}
    ensures router.ledger == Ledger([], [], [], [], [])
  {
    hide RuntimePublicationRouter.Valid, PolicyOf, RouteOf, TableBuilt;
    router := new RuntimePublicationRouter(null, [FULL]);
    OneRouteIn(FULL, router.table);
  }

  /** One willing async edge takes a publication: it joins the end of the queue, and at the limit the head goes. */
  lemma TakenAlone(st: Stages, l: Ledger, st': Stages, l': Ledger, e: RoutedEdge, payload: Payload, accepted: bool)
    requires FannedTo(st, l, st', l', [e], payload, None, accepted) && e.Async() && e.DropsOldest()
    ensures var p := Routed(|l.staged|, e, payload, None);
      && Pending(st', e.channel) == Enqueued(Pending(st, e.channel), p)
      && Pending(st, e.channel) + [p] == OfChannel(l'.overwritten[|l.overwritten|..], e.channel) + Pending(st', e.channel)
    ensures l.overwritten <= l'.overwritten && l'.discarded == l.discarded
  {
    hide Pending, OfChannel, Willing;
    var p := Routed(|l.staged|, e, payload, None);
    assert AllWilling(st, [e]) by { Yields(st, e); }
    var n: nat :| StagedUpTo(st, l, l', [e], n, payload, None, accepted);
    assert n == 1 && [e][0] == e;
    assert l'.staged[|l.staged| + 0] == p;
    assert l'.staged[|l.staged|..] == [] + [p];
    QueueAfterOne(Pending(st, e.channel), [], p, e.channel);
    OfChannelOne(p, e.channel);
    assert [] + [p] == [p];
  }

  lemma FullRoute()
    ensures var e := RouteOf(FULL); e.channel == "full" && e.Async() && e.DropsOldest() && e.maxInflight == 1
  {
    hide ComponentOf;
  }

  lemma Yields(st: Stages, e: RoutedEdge)
    requires e.DropsOldest()
    ensures Willing(st, e)
  {
  }

  lemma Ends(table: RoutingTable, active: set<Id>)
    requires "a.out" in table && table["a.out"] == [RouteOf(FULL)] && active == set c | c in ["a"]
    ensures Leaves(RouteOf(FULL), EdgesIn(table), active)
  {
    assert "a" in ["a"] && "b" !in ["a"];
    assert "a.out"[..4] == "a.ou" && "a.ou"[..3] == "a.o" && "a.o"[..2] == "a." && "a."[..1] == "a";
    assert "b.in"[..3] == "b.i" && "b.i"[..2] == "b." && "b."[..1] == "b";
    assert ComponentOf("a.out") == "a" && ComponentOf("b.in") == "b";
    EdgeListed(table, "a.out", 0);
  }

  lemma TwoRoutes(a: ChannelEdge, b: ChannelEdge, table: RoutingTable)
    requires TableBuilt([a, b], table) && a.from == b.from
    ensures a.from in table && table[a.from] == [RouteOf(a), RouteOf(b)]
  {
    hide RouteOf;
    OneRoute(a);
    assert [a, b][..1] == [a];
    assert (if a.from in table then table[a.from] else []) == RoutesFrom([a, b], a.from);
  }

  lemma OneRouteIn(a: ChannelEdge, table: RoutingTable)
    requires TableBuilt([a], table)
    ensures a.from in table && table[a.from] == [RouteOf(a)]
  {
    hide RouteOf;
    OneRoute(a);
    assert (if a.from in table then table[a.from] else []) == RoutesFrom([a], a.from);
  }

  lemma OneRoute(a: ChannelEdge)
    ensures RoutesFrom([a], a.from) == [RouteOf(a)]
  {
    hide RouteOf;
    assert [a][..0] == [];
  }

  lemma NothingPending()
    ensures forall c :: Pending(Stages([], [], [], []), c) == []
  {
  }

  lemma QueueOfTwo(p: Routed, q: Routed, c: Id)
    requires !p.edge.Async() && q.edge.Async() && q.edge.channel == c
    ensures QueueAfter([], [p, q], c) == [q]
  {
    assert [p, q] == [p] + [q] && [p] == [] + [p];
    QueueAfterOne([], [p], q, c);
    QueueAfterOne([], [], p, c);
  }

  /** Where nothing was committed, discarded or lost, an immediate publication is still held. */
  lemma StillImmediate(st: Stages, l: Ledger, active: set<Id>, p: Routed)
    requires Balanced(st, l) && WellPlaced(st, active) && AllAsync(l.overwritten) && st.composite == []
    requires p in l.staged && p.edge.kind == Immediate && l.committed == [] && l.discarded == [] && l.lost == []
    ensures p in st.immediate
  {
    assert p in multiset(l.staged);
    assert p !in l.overwritten;
    assert p !in st.nextEpoch + st.ready;
  }
}
