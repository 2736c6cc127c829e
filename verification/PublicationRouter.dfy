/** The router: publications wait in one of four stores until their region, loop or epoch lets them through. */
module PublicationRouter {
  import opened Ids
  import opened Messages
  import opened Channels
  import opened ChannelBatch
  import opened ChannelBus
  import opened GraphSpecs
  import opened Staging

  datatype RouterMetrics = RouterMetrics(staged: nat, committed: nat, discarded: nat, failedCommits: nat,
                                         admitted: nat, refused: nat, dropped: nat, overwritten: nat, completed: nat,
                                         cancelled: nat)

  type RoutingTable = map<Id, seq<RoutedEdge>>

  ghost function EdgesIn(table: RoutingTable): set<RoutedEdge> {
    set k, i | k in table && 0 <= i < |table[k]| :: table[k][i]
  }

  /** A channel belongs to one edge, and an endpoint feeds it once. */
  ghost predicate TableSound(table: RoutingTable) {
    OneEdgeEach(EdgesIn(table)) && forall k :: k in table ==> DistinctChannels(table[k])
  }

  lemma SoundTable(table: RoutingTable)
    requires TableSound(table)
    ensures OneEdgeEach(EdgesIn(table))
  {
  }

  function RouteOf(e: ChannelEdge): RoutedEdge {
    RoutedEdge(e.id, ComponentOf(e.from), ComponentOf(e.to), e.kind, e.policy.maxInflight, e.policy.overflow)
  }

  /** The batch as the bus sees it. */
  function Publications(batch: seq<Routed>): (r: seq<Publication>)
    ensures |r| == |batch| && forall i :: 0 <= i < |batch| ==>
      r[i].toChannel && r[i].id == batch[i].edge.channel && r[i].payload == Some(batch[i].payload) && r[i].stamp == batch[i].stamp
  {
    seq(|batch|, i requires 0 <= i < |batch| =>
      Publication(true, batch[i].edge.channel, Some(batch[i].payload), batch[i].edge.kind, batch[i].stamp))
  }

  function Items(batch: seq<Routed>): (r: seq<Item>)
    ensures |r| == |batch| && forall i :: 0 <= i < |batch| ==>
      r[i].channel == batch[i].edge.channel && r[i].payload == batch[i].payload && r[i].stamp == batch[i].stamp
  {
    seq(|batch|, i requires 0 <= i < |batch| => Item(batch[i].edge.channel, batch[i].payload, batch[i].stamp))
  }

  lemma {:induction false} PublicationsExpand(channels: ChannelMap, sources: Routes, batch: seq<Routed>)
    requires RoutesKnown(channels, sources)
    ensures Expanded(channels, sources, Publications(batch)).Some? ==>
      Expanded(channels, sources, Publications(batch)).value == Items(batch)
    ensures Expanded(channels, sources, Publications(batch)).Some? <==> forall p :: p in batch ==> p.edge.channel in channels
  {
    if batch != [] {
      var front, p := batch[..|batch| - 1], batch[|batch| - 1];
      PublicationsExpand(channels, sources, front);
      assert Publications(batch)[..|batch| - 1] == Publications(front);
      assert Items(batch) == Items(front) + [Item(p.edge.channel, p.payload, p.stamp)];
      assert batch == front + [p];
    }
  }

  /** What a channel gets out of a batch: the payload and timestamp of each publication on its edge, in order. */
  ghost function Delivery(batch: seq<Routed>, c: Id): seq<Sending> {
    if batch == [] then []
    else
      var p := batch[|batch| - 1];
      Delivery(batch[..|batch| - 1], c) + if p.edge.channel == c then [(p.payload, p.stamp)] else []
  }

  lemma {:induction false} DeliveryConcat(a: seq<Routed>, b: seq<Routed>, c: Id)
    ensures Delivery(a + b, c) == Delivery(a, c) + Delivery(b, c)
  {
    if b == [] {
      assert a + b == a;
    } else {
      assert (a + b)[..|a + b| - 1] == a + b[..|b| - 1];
      DeliveryConcat(a, b[..|b| - 1], c);
    }
  }

  /** What the bus is handed for a batch arrives as it was staged. */
  lemma {:induction false} ItemsDeliver(batch: seq<Routed>, c: Id)
    ensures ItemSendings(Items(batch), c) == Delivery(batch, c)
  {
    if batch != [] {
      var front := batch[..|batch| - 1];
      ItemsDeliver(front, c);
      assert Items(batch)[..|front|] == Items(front);
    }
  }

  /** Since then, each channel was sent exactly the publications of this batch that are on its edge. */
  ghost predicate SentFor(h: Histories, h': Histories, batch: seq<Routed>) {
    h'.Keys == h.Keys && forall c :: c in h ==> Sendings(h'[c]) == Sendings(h[c]) + Delivery(batch, c)
  }

  lemma SentItems(h: Histories, h': Histories, batch: seq<Routed>)
    requires SentMore(h, h', Items(batch))
    ensures SentFor(h, h', batch)
  {
    hide ItemSendings, Delivery, Sendings, Items;
    forall c | c in h ensures Sendings(h'[c]) == Sendings(h[c]) + Delivery(batch, c) {
      ItemsDeliver(batch, c);
    }
  }

  lemma SentNone(h: Histories, h': Histories)
    requires SentMore(h, h', [])
    ensures SentFor(h, h', [])
  {
    hide Sendings;
  }

  lemma TargetsKnown(channels: ChannelMap, batch: seq<Routed>)
    ensures Targets(channels, Items(batch)) <==> forall p :: p in batch ==> p.edge.channel in channels
  {
    if Targets(channels, Items(batch)) {
      forall p | p in batch ensures p.edge.channel in channels {
        var i :| 0 <= i < |batch| && batch[i] == p;
        assert Items(batch)[i].channel in channels;
      }
    }
  }

  lemma {:induction false} CommitElsewhere(channels: ChannelMap, items: seq<Item>, now: int, c: Id)
    requires Targets(channels, items) && c in channels && forall i :: 0 <= i < |items| ==> items[i].channel != c
    ensures Commit(channels, items, now)[c] == channels[c]
  {
    if items != [] {
      CommitElsewhere(channels, items[..|items| - 1], now, c);
    }
  }

  /** What a commit does to the channels of the bus: the whole batch in order, or nothing. */
  ghost predicate BusCommitted(before: ChannelMap, after: ChannelMap, batch: seq<Routed>, accepted: bool, now: int) {
    if accepted then Targets(before, Items(batch)) && Fits(before, Items(batch)) && after == Commit(before, Items(batch), now)
    else AllSameContents(before, after) && !(Targets(before, Items(batch)) && Fits(before, Items(batch)))
  }

  /** What was committed since is exactly what was published to the channels since, channel by channel in order. */
  ghost predicate Carried(h: Histories, h': Histories, l: Ledger, l': Ledger) {
    l.committed <= l'.committed && SentFor(h, h', l'.committed[|l.committed|..])
  }

  lemma CarriedNothing(h: Histories, l: Ledger, l': Ledger)
    requires l'.committed == l.committed
    ensures Carried(h, h, l, l')
  {
    SentNothing(h);
  }

  lemma CarriedBatch(h: Histories, h': Histories, l: Ledger, batch: seq<Routed>, accepted: bool)
    requires SentFor(h, h', if accepted then batch else [])
    ensures Carried(h, h', l, Committed(l, batch, accepted))
  {
    assert Committed(l, batch, accepted).committed[|l.committed|..] == if accepted then batch else [];
  }

  lemma CarriedChain(a: Histories, b: Histories, c: Histories, l: Ledger, m: Ledger, n: Ledger)
    requires Carried(a, b, l, m) && Carried(b, c, m, n)
    ensures Carried(a, c, l, n)
  {
    hide Sendings, Delivery;
    var first, second := m.committed[|l.committed|..], n.committed[|m.committed|..];
    assert n.committed[|l.committed|..] == first + second;
    forall k | k in a ensures Sendings(c[k]) == Sendings(a[k]) + Delivery(first + second, k) {
      DeliveryConcat(first, second, k);
    }
  }

  class RuntimePublicationRouter {
    const bus: RuntimeChannelBus?
    const table: RoutingTable
    var active: set<Id>
    var composite: seq<Routed>
    var immediate: seq<Routed>
    var nextEpoch: seq<Routed>
    var ready: seq<Routed>
    var metrics: RouterMetrics
    ghost var ledger: Ledger
    /** The open composite region, while nothing has been committed or discarded since; and whether one was ever
        opened over outputs of another. */
    ghost var opening: Option<Opening>
    ghost var nested: bool

    ghost function Buses(): set<RuntimeChannelBus> {
      if bus == null then {} else {bus}
    }

    ghost function Stores(): Stages
      reads this
    {
      Stages(immediate, nextEpoch, ready, composite)
    }

    /** What was ever published to each channel. */
    ghost function Sent(): Histories
      reads bus
    {
      if bus == null then map[] else bus.history
    }

    /** The counters agree with the ledger; `extra` async publications are admitted but not staged yet. */
    ghost predicate Tallied(extra: nat)
      reads this
    {
      && metrics.staged == |ledger.staged| && metrics.committed == |ledger.committed|
      && metrics.discarded == |ledger.discarded| && metrics.overwritten == |ledger.overwritten|
      && (metrics.failedCommits == 0 && !nested <==> ledger.lost == [])
      && metrics.admitted == metrics.completed + metrics.overwritten + metrics.cancelled + PendingAsync(Stores()) + AsyncCount(ledger.lost) + extra
    }

    ghost predicate BusValid()
      reads this, bus
    {
      bus != null ==> bus.Valid()
    }

    ghost predicate Valid()
      reads this, bus
    {
      BusValid() && OwnValid(0)
    }

    /** The router's own part of validity: nothing that happens on the bus can break it. */
    ghost predicate OwnValid(extra: nat)
      reads this
    {
      TableSound(table) && Kept(Stores(), ledger, active, EdgesIn(table), opening) && Tallied(extra)
    }

    /** Edge ids are distinct, as the bus assumes too. */
    constructor (bus: RuntimeChannelBus?, edges: seq<ChannelEdge>)
      requires bus != null ==> bus.Valid()
      requires forall i, j :: 0 <= i < j < |edges| ==> edges[i].id != edges[j].id
      ensures Valid() && this.bus == bus && Stores() == Stages([], [], [], []) && active == {}
      ensures ledger == Ledger([], [], [], [], []) && opening == None && metrics == RouterMetrics(0, 0, 0, 0, 0, 0, 0, 0, 0, 0)
      ensures TableBuilt(edges, table)
      ensures AllDeclared(edges, table)
    {
      hide AllDeclared;
      var routes := Routing(edges);
      this.bus, table, active := bus, routes, {};
      composite, immediate, nextEpoch, ready := [], [], [], [];
      metrics := RouterMetrics(0, 0, 0, 0, 0, 0, 0, 0, 0, 0);
      ledger, opening, nested := Ledger([], [], [], [], []), None, false;
      TableDeclared(edges, routes);
    }

    static method Routing(edges: seq<ChannelEdge>) returns (table: RoutingTable)
      requires forall i, j :: 0 <= i < j < |edges| ==> edges[i].id != edges[j].id
      ensures TableBuilt(edges, table) && TableSound(table)
    {
      table := map[];
      assert edges[..0] == [];
      for i := 0 to |edges|
        invariant TableBuilt(edges[..i], table)
      {
        var e := edges[i];
        assert edges[..i + 1] == edges[..i] + [e];
        TableAdd(edges[..i], e, table);
        table := table[e.from := (if e.from in table then table[e.from] else []) + [RouteOf(e)]];
      }
      assert edges[..|edges|] == edges;
      TableUnique(edges, table);
      TableDistinct(edges, table);
    }

    lemma WhatIsValid()
      requires Valid()
      ensures WellPlaced(Stores(), active) && Balanced(Stores(), ledger) && AllAsync(ledger.overwritten)
      ensures active == {} ==> composite == []
    {
      assert composite != [] ==> composite[0] in composite;
    }

    /** Opens a composite region. What an earlier one left in the composite store is lost. */
    method BeginCompositeRegion(components: seq<Id>)
      requires Valid()
      modifies this`active, this`composite, this`ledger, this`opening, this`nested
      ensures Valid() && active == (set c | c in components) && Stores() == old(Stores()).(composite := [])
      ensures ledger == old(ledger).(lost := old(ledger.lost) + old(composite))
      ensures opening == Some(Opening(Stores(), |ledger.overwritten|))
    {
      hide Kept, TableSound, Pending, AsyncCount, EdgesIn;
      ghost var st := Stores();
      KeptOpened(st, ledger, active, EdgesIn(table), opening, set c | c in components);
      LostIff(ledger, composite);
      NothingCounted();
      ledger := Committed(ledger, composite, false);
      nested := nested || composite != [];
      active := set c | c in components;
      composite := [];
      opening := Some(Opening(Stores(), |ledger.overwritten|));
    }

    method PendingAsyncCount(c: Id) returns (count: nat)
      ensures count == |Pending(Stores(), c)|
    {
      var a := CountOf(nextEpoch, c);
      var b := CountOf(ready, c);
      var d := CountOf(composite, c);
      count := a + b + d;
    }

    /** Gives up the oldest pending publication of an async channel, wherever it is stored. */
    method DropOldestPendingAsync(c: Id) returns (dropped: bool)
      requires Valid()
      modifies this`ready, this`nextEpoch, this`composite, this`metrics, this`ledger
      ensures Valid() && dropped == (old(Pending(Stores(), c)) != [])
      ensures dropped ==> Pending(Stores(), c) == old(Pending(Stores(), c))[1..]
      ensures dropped ==> ledger == old(ledger).(overwritten := old(ledger.overwritten) + [old(Pending(Stores(), c))[0]])
      ensures dropped ==> metrics == old(metrics).(overwritten := old(metrics.overwritten) + 1)
      ensures !dropped ==> Stores() == old(Stores()) && ledger == old(ledger) && metrics == old(metrics)
      ensures immediate == old(immediate) && forall d :: d != c ==> Pending(Stores(), d) == old(Pending(Stores(), d))
    {
      hide Evicted, Pending, PendingAsync, Kept, AsyncCount, EdgesIn, TableSound, RuntimeChannelBus.Valid;
      ghost var st := Stores();
      var taken := TakeOldest(c);
      if taken.None? {
        return false;
      }
      ghost var victim := taken.value;
      KeptEvicted(st, Stores(), c, victim, ledger, active, EdgesIn(table), opening);
      EvictedPending(st, Stores(), c, victim);
      metrics := metrics.(overwritten := metrics.overwritten + 1);
      ledger := ledger.(overwritten := ledger.overwritten + [victim]);
      dropped := true;
    }

    method TakeOldest(c: Id) returns (taken: Option<Routed>)
      modifies this`ready, this`nextEpoch, this`composite
      ensures if taken.Some? then Evicted(old(Stores()), Stores(), c, taken.value) else Stores() == old(Stores()) && Pending(Stores(), c) == []
    {
      hide Evicted, Pending, FirstOf, OfChannel;
      ghost var st := Stores();
      var k := FindOf(ready, c);
      FirstOfBound(ready, c, k);
      if k < |ready| {
        EvictReady(st, c, k);
        taken := Some(ready[k]);
        ready := ready[..k] + ready[k + 1..];
        return;
      }
      var m := FindOf(nextEpoch, c);
      FirstOfBound(nextEpoch, c, m);
      if m < |nextEpoch| {
        EvictNext(st, c, m);
        taken := Some(nextEpoch[m]);
        nextEpoch := nextEpoch[..m] + nextEpoch[m + 1..];
        return;
      }
      var n := FindOf(composite, c);
      FirstOfBound(composite, c, n);
      if n < |composite| {
        EvictComposite(st, c, n);
        taken := Some(composite[n]);
        composite := composite[..n] + composite[n + 1..];
        return;
      }
      NoneToEvict(st, c);
      taken := None;
    }

    /** Whether an async publication may be staged. At the limit, the oldest pending one makes way or the new
        one is refused, by policy. */
    method AdmitAsync(edge: RoutedEdge) returns (accepted: bool)
      requires Valid() && edge in EdgesIn(table)
      modifies this`ready, this`nextEpoch, this`composite, this`metrics, this`ledger
      ensures BusValid() && OwnValid(if accepted && edge.Async() then 1 else 0) && immediate == old(immediate)
      ensures accepted <==> old(Willing(Stores(), edge))
      ensures old(RoomFor(Stores(), edge)) || !accepted ==> Stores() == old(Stores()) && ledger == old(ledger)
      ensures !old(RoomFor(Stores(), edge)) && accepted ==> MadeWay(old(Stores()), Stores(), edge, old(ledger), ledger)
      ensures metrics.staged == old(metrics.staged)
      ensures !accepted ==> metrics == old(metrics).(refused := old(metrics.refused) + 1,
                                                     dropped := old(metrics.dropped) + if edge.overflow == "drop_newest" then 1 else 0)
      ensures accepted ==> RoomFor(Stores(), edge)
    {
      hide Pending, PendingAsync, AsyncCount, EdgesIn, TableSound, WellPlaced, FromEdges, Balanced, AllAsync, Remembers;
      if !edge.Async() {
        return true;
      }
      var pending := PendingAsyncCount(edge.channel);
      if edge.maxInflight > 0 && pending >= edge.maxInflight {
        if edge.overflow == "drop_oldest" || edge.overflow == "overwrite" {
          var dropped := DropOldestPendingAsync(edge.channel);
        } else if edge.overflow == "drop_newest" {
          metrics := metrics.(dropped := metrics.dropped + 1, refused := metrics.refused + 1);
          return false;
        } else {
          metrics := metrics.(refused := metrics.refused + 1);
          return false;
        }
      }
      metrics := metrics.(admitted := metrics.admitted + 1);
      accepted := true;
    }

    /** The store that holds a publication is chosen by its edge and the active region. */
    method Place(publication: Routed)
      modifies this`nextEpoch, this`composite, this`immediate
      ensures Stores() == Staged(old(Stores()), publication, active)
    {
      var edge := publication.edge;
      if edge.source in active && edge.target !in active {
        composite := composite + [publication];
      } else if edge.kind != Immediate {
        nextEpoch := nextEpoch + [publication];
      } else {
        immediate := immediate + [publication];
      }
    }

    /** Stages one publication on one edge. On an async channel it joins the end of the bounded queue. */
    method StageOne(edge: RoutedEdge, payload: Payload, stamp: Option<Stamp>) returns (accepted: bool, ghost p: Routed)
      requires Valid() && edge in EdgesIn(table)
      modifies this`ready, this`nextEpoch, this`composite, this`immediate, this`metrics, this`ledger
      ensures Valid() && accepted == old(Willing(Stores(), edge))
      ensures !accepted ==> Stores() == old(Stores()) && ledger == old(ledger)
      ensures accepted ==> p == Routed(|old(ledger.staged)|, edge, payload, stamp) && ledger.staged == old(ledger.staged) + [p]
      ensures accepted ==> ledger == old(ledger).(staged := ledger.staged, overwritten := ledger.overwritten)
      ensures accepted ==> ledger.overwritten == old(ledger.overwritten) + old(Evictee(Stores(), edge))
      ensures accepted && old(RoomFor(Stores(), edge)) ==> Stores() == Staged(old(Stores()), p, active)
      ensures accepted && edge.Async() ==> Pending(Stores(), edge.channel) == Enqueued(old(Pending(Stores(), edge.channel)), p)
      ensures accepted ==> forall c :: !edge.Async() || c != edge.channel ==> Pending(Stores(), c) == old(Pending(Stores(), c))
      ensures Fenced(old(immediate), active) ==> Fenced(immediate, active)
      ensures accepted ==> immediate == Staged(old(Stores()), p, active).immediate
    {
      hide Pending, PendingAsync, Kept, AsyncCount, EdgesIn, Fenced, TableSound, Staged;
      SoundTable(table);
      p := Routed(metrics.staged, edge, payload, stamp);
      accepted := AdmitAsync(edge);
      if !accepted {
        return;
      }
      ghost var st := Stores();
      Place(Routed(metrics.staged, edge, payload, stamp));
      KeptStaged(st, p, ledger, active, EdgesIn(table), opening);
      StagedCount(st, p, active);
      StagedFenced(st, p, active);
      SameImmediate(old(Stores()), st, p, active);
      forall c ensures Pending(Stores(), c) == Pending(st, c) + if edge.Async() && c == edge.channel then [p] else [] {
        PlacedPending(st, p, ledger, active, EdgesIn(table), opening, c);
      }
      metrics := metrics.(staged := metrics.staged + 1);
      ledger := ledger.(staged := ledger.staged + [p]);
    }

    /** Hands a batch to the bus. The caller has taken it out of its store. */
    method CommitBatch(batch: seq<Routed>, now: int) returns (accepted: bool)
      requires BusValid()
      modifies this`metrics, Buses()
      ensures BusValid() && (batch == [] ==> accepted)
      ensures accepted ==> metrics == old(metrics).(committed := old(metrics.committed) + |batch|)
      ensures !accepted ==> metrics == old(metrics).(failedCommits := old(metrics.failedCommits) + 1)
      ensures bus == null ==> accepted == (batch == [])
      ensures bus != null ==> BusCommitted(old(bus.channels), bus.channels, batch, accepted, now)
      ensures SentFor(old(Sent()), Sent(), if accepted then batch else []) && (bus != null ==> bus.handed == old(bus.handed))
    {
      hide SentMore, SentFor, AllSound, Traced, HandedRight;
      SentNothing(Sent());
      SentNone(Sent(), Sent());
      if batch == [] {
        accepted := true;
      } else if bus == null {
        metrics := metrics.(failedCommits := metrics.failedCommits + 1);
        accepted := false;
      } else {
        PublicationsExpand(bus.channels, bus.sources, batch);
        TargetsKnown(bus.channels, batch);
        ghost var sent := Sent();
        accepted := bus.PublishBatch(Publications(batch), now);
        if accepted {
          SentItems(sent, Sent(), batch);
          metrics := metrics.(committed := metrics.committed + |batch|);
        } else {
          SentNone(sent, Sent());
          metrics := metrics.(failedCommits := metrics.failedCommits + 1);
        }
      }
    }

    /** Stages a publication on every edge of an endpoint. It is accepted exactly when every edge was willing to
        take it; if one was not, the edges before the first such one keep theirs. */
    method PublishFrom(endpoint: Id, payload: Option<Payload>, stamp: Option<Stamp>) returns (accepted: bool)
      requires Valid()
      modifies this`ready, this`nextEpoch, this`composite, this`immediate, this`metrics, this`ledger
      ensures Valid()
      ensures payload.None? || endpoint !in table ==> !accepted && Stores() == old(Stores()) && ledger == old(ledger)
      ensures payload.Some? && endpoint in table ==>
        FannedTo(old(Stores()), old(ledger), Stores(), ledger, table[endpoint], payload.value, stamp, accepted)
      ensures Fenced(old(immediate), active) ==> Fenced(immediate, active)
      ensures Joined(old(Stores()), old(ledger), Stores(), ledger, active)
    {
      hide Joined, WellPlaced, FromEdges, WithinLimits, Balanced, TableSound, EdgesIn, PendingAsync, Pending, Remembers, RoomFor, Fenced,
        LedgerGrows, RuntimePublicationRouter.Valid, DistinctChannels, QueuesAfter, Took, Kept, Evictee;
      JoinedNothing(Stores(), ledger, active);
      if payload.None? || endpoint !in table {
        return false;
      }
      var edges := table[endpoint];
      assert DistinctChannels(edges) by { EndpointEdges(endpoint); }
      GrowsNone(ledger, edges, payload.value, stamp);
      ghost var st := Stores();
      QueuesFirst(st, ledger, edges);
      for i := 0 to |edges|
        invariant Valid() && LedgerGrows(old(ledger), ledger, edges, i, payload.value, stamp)
        invariant QueuesAfter(st, Stores(), old(ledger), ledger, edges, i)
        invariant forall j :: 0 <= j < i ==> Willing(st, edges[j])
        invariant i == 0 ==> Stores() == st && ledger == old(ledger)
        invariant Fenced(old(immediate), active) ==> Fenced(immediate, active)
        invariant Joined(st, old(ledger), Stores(), ledger, active)
      {
        EdgeListed(table, endpoint, i);
        ghost var before, stores := ledger, Stores();
        WillingStill(st, stores, old(ledger), before, edges, i);
        ghost var p;
        accepted, p := StageOne(edges[i], payload.value, stamp);
        if !accepted {
          assert StagedUpTo(st, old(ledger), ledger, edges, i, payload.value, stamp, false);
          FanOutAtomic(st, old(ledger), ledger, edges, i, payload.value, stamp, false);
          QueuesTo(st, Stores(), old(ledger), ledger, edges, i);
          return;
        }
        LedgerGrowsOne(old(ledger), before, ledger, edges, i, payload.value, stamp, p);
        JoinedOne(st, old(ledger), stores, before, Stores(), ledger, p, active);
        QueuesOne(st, stores, Stores(), old(ledger), before, ledger, edges, i, p);
      }
      accepted := true;
      assert StagedUpTo(st, old(ledger), ledger, edges, |edges|, payload.value, stamp, true);
      FanOutAtomic(st, old(ledger), ledger, edges, |edges|, payload.value, stamp, true);
      QueuesTo(st, Stores(), old(ledger), ledger, edges, |edges|);
    }

    lemma EndpointEdges(endpoint: Id)
      requires Valid() && endpoint in table
      ensures DistinctChannels(table[endpoint])
    {
    }

    /** Lets the outputs of the composite region through: the immediate ones in one batch, in staging order, and
        the deferred ones to the next epoch. */
    method CommitCompositeRegionOutputs(now: int) returns (accepted: bool)
      requires Valid()
      modifies this, Buses()
      ensures Valid() && active == {} && opening == None && Stores() == old(Released(Stores()))
      ensures Carried(old(Sent()), Sent(), old(ledger), ledger) && (bus != null ==> bus.handed == old(bus.handed))
      ensures ledger == Committed(old(ledger), Immediates(old(composite)), accepted)
      ensures Immediates(old(composite)) == [] ==> accepted
      ensures bus == null ==> accepted == (Immediates(old(composite)) == [])
      ensures bus != null ==> BusCommitted(old(bus.channels), bus.channels, Immediates(old(composite)), accepted, now)
      ensures forall c :: Pending(Stores(), c) == old(Pending(Stores(), c))
    {
      hide Kept, TableSound, PendingAsync, Pending, AsyncCount, BusCommitted, EdgesIn, Immediates, Deferreds, Carried, SentMore, SentFor,
        RuntimeChannelBus.Valid;
      ghost var st := Stores();
      var batch, deferred := SplitStage(composite);
      forall c ensures Pending(Released(st), c) == Pending(st, c) {
        ReleasedPending(st, c);
      }
      nextEpoch := nextEpoch + deferred;
      composite := [];
      active := {};
      accepted := CommitBatch(batch, now);
      KeptReleased(st, ledger, old(active), EdgesIn(table), opening, accepted);
      CarriedBatch(old(Sent()), Sent(), ledger, batch, accepted);
      LostIff(ledger, batch);
      opening := None;
      ledger := Committed(ledger, batch, accepted);
    }

    /** Drops the outputs of the composite region. What async admission evicted meanwhile does not come back. */
    method DiscardCompositeRegionOutputs()
      requires Valid()
      modifies this
      ensures Valid() && active == {} && opening == None && Stores() == old(Stores()).(composite := [])
      ensures ledger == old(ledger).(discarded := old(ledger.discarded) + old(composite))
      ensures old(opening).Some? ==> Restored(old(opening).value, Stores(), ledger.overwritten, old(active), EdgesIn(table))
      ensures forall c :: old(Pending(Stores(), c)) == Pending(Stores(), c) + OfChannel(old(composite), c)
    {
      hide Kept, TableSound, Pending, AsyncCount, OfChannel, Restored, EdgesIn;
      ghost var st := Stores();
      var discardedAsync := CountAsync(composite);
      KeptDiscarded(st, ledger, active, EdgesIn(table), opening);
      NothingCounted();
      forall c ensures Pending(st, c) == Pending(st.(composite := []), c) + OfChannel(st.composite, c) {
        EmptiedPending(st, c);
      }
      metrics := metrics.(discarded := metrics.discarded + |composite|, cancelled := metrics.cancelled + discardedAsync);
      ledger := ledger.(discarded := ledger.discarded + composite);
      composite := [];
      active := {};
      opening := None;
    }

    /** Opens an epoch: pending previous-tick values become readable, and everything that was waiting for the
        epoch is committed as one batch. */
    method BeginEpoch(now: int) returns (accepted: bool)
      requires Valid()
      modifies this, Buses()
      ensures Valid() && active == old(active) && Stores() == old(Stores()).(ready := [])
      ensures Carried(old(Sent()), Sent(), old(ledger), ledger) && (bus != null ==> bus.handed == old(bus.handed))
      ensures ledger == Committed(old(ledger), old(ready), accepted)
      ensures bus == null ==> accepted == (old(ready) == [])
      ensures old(ready) == [] ==> accepted
      ensures bus != null ==>
        exists advanced: ChannelMap :: AllAdvanced(old(bus.channels), advanced) && BusCommitted(advanced, bus.channels, old(ready), accepted, now)
      ensures forall c :: old(Pending(Stores(), c)) == OfChannel(old(ready), c) + Pending(Stores(), c)
    {
      hide Kept, TableSound, PendingAsync, Pending, AsyncCount, OfChannel, BusCommitted, Carried, SentMore, SentFor, EdgesIn,
        RuntimeChannelBus.Valid;
      ghost var st := Stores();
      SentNothing(Sent());
      if bus != null {
        bus.AdvanceEpoch();
        assert AllAdvanced(old(bus.channels), bus.channels);
      }
      ghost var advanced, sent := if bus != null then bus.channels else map[], Sent();
      var batch := ready;
      ready := [];
      var asyncReady := CountAsync(batch);
      forall c ensures Pending(st, c) == OfChannel(st.ready, c) + Pending(st.(ready := []), c) {
        EmptiedPending(st, c);
      }
      accepted := CommitBatch(batch, now);
      assert bus != null ==> BusCommitted(advanced, bus.channels, batch, accepted, now);
      if accepted && asyncReady > 0 {
        metrics := metrics.(completed := metrics.completed + asyncReady);
      }
      KeptReadied(st, ledger, active, EdgesIn(table), opening, accepted);
      SentAfter(old(Sent()), sent, Sent(), if accepted then batch else []);
      CarriedBatch(old(Sent()), Sent(), ledger, batch, accepted);
      LostIff(ledger, batch);
      opening := None;
      ledger := Committed(ledger, batch, accepted);
    }

    /** Commits what was published on immediate edges, as one batch. The channels that leave an active composite
        region are not touched. */
    method CommitImmediate(now: int) returns (accepted: bool)
      requires Valid()
      modifies this, Buses()
      ensures Valid() && active == old(active) && opening == old(opening) && Stores() == old(Stores()).(immediate := [])
      ensures ledger == Committed(old(ledger), old(immediate), accepted)
      ensures (old(immediate) == [] ==> accepted) && (bus == null ==> accepted == (old(immediate) == []))
      ensures bus != null ==> BusCommitted(old(bus.channels), bus.channels, old(immediate), accepted, now)
      ensures forall c :: Pending(Stores(), c) == old(Pending(Stores(), c))
      ensures Carried(old(Sent()), Sent(), old(ledger), ledger) && (bus != null ==> bus.handed == old(bus.handed))
      ensures bus != null && Fenced(old(immediate), active) ==> OutputsUntouched(EdgesIn(table), active, old(bus.channels), bus.channels)
    {
      hide Kept, TableSound, PendingAsync, Pending, AsyncCount, OfChannel, BusCommitted, OutputsUntouched, EdgesIn, Carried, SentMore, SentFor,
        Fenced, RuntimeChannelBus.Valid;
      ghost var st := Stores();
      var batch := immediate;
      immediate := [];
      forall c ensures Pending(st.(immediate := []), c) == Pending(st, c) {
        EmptiedPending(st, c);
      }
      accepted := CommitBatch(batch, now);
      KeptImmediate(st, ledger, active, EdgesIn(table), opening, accepted);
      CarriedBatch(old(Sent()), Sent(), ledger, batch, accepted);
      SoundTable(table);
      if bus != null && Fenced(batch, active) {
        Untouched(EdgesIn(table), active, old(bus.channels), bus.channels, batch, accepted, now);
      }
      LostIff(ledger, batch);
      ledger := Committed(ledger, batch, accepted);
    }

    /** Closes an epoch: what was deferred during it is ready for the next one, behind what already was. */
    method EndEpoch()
      requires Valid()
      modifies this`ready, this`nextEpoch
      ensures Valid() && Stores() == old(Ended(Stores()))
      ensures forall c :: Pending(Stores(), c) == old(Pending(Stores(), c))
    {
      hide Kept, TableSound, PendingAsync, Pending, AsyncCount, EdgesIn;
      ghost var st := Stores();
      forall c ensures Pending(Ended(st), c) == Pending(st, c) {
        EndedPending(st, c);
      }
      KeptEnded(st, ledger, active, EdgesIn(table), opening);
      ready := ready + nextEpoch;
      nextEpoch := [];
    }
  }

  lemma SentAfter(a: Histories, b: Histories, c: Histories, batch: seq<Routed>)
    requires SentMore(a, b, []) && SentFor(b, c, batch)
    ensures SentFor(a, c, batch)
  {
    hide Sendings, Delivery;
  }

  lemma NothingCounted()
    ensures AsyncCount([]) == 0
  {
  }

  lemma PlacedPending(st: Stages, p: Routed, l: Ledger, active: set<Id>, edges: set<RoutedEdge>, opening: Option<Opening>, c: Id)
    requires Kept(st, l, active, edges, opening) && OneEdgeEach(edges) && p.edge in edges
    ensures Pending(Staged(st, p, active), c) == Pending(st, c) + if p.edge.Async() && c == p.edge.channel then [p] else []
  {
    StagedPending(st, p, active, edges, c);
  }

  lemma SameImmediate(a: Stages, b: Stages, p: Routed, active: set<Id>)
    requires a.immediate == b.immediate
    ensures Staged(a, p, active).immediate == Staged(b, p, active).immediate
  {
  }

  lemma StagedFenced(st: Stages, p: Routed, active: set<Id>)
    ensures Fenced(st.immediate, active) ==> Fenced(Staged(st, p, active).immediate, active)
  {
  }

  ghost predicate AllAdvanced(before: ChannelMap, after: ChannelMap) {
    after.Keys == before.Keys && forall c :: c in before ==> after[c] == Advanced(before[c])
  }

  /** No channel that leaves the region has a new message, or lost one. */
  ghost predicate OutputsUntouched(edges: set<RoutedEdge>, active: set<Id>, before: ChannelMap, after: ChannelMap) {
    forall e :: e in edges && e.Crosses(active) && e.channel in before ==>
      e.channel in after && SameContents(before[e.channel], after[e.channel])
  }

  lemma Untouched(edges: set<RoutedEdge>, active: set<Id>, before: ChannelMap, after: ChannelMap, batch: seq<Routed>,
                  accepted: bool, now: int)
    requires BusCommitted(before, after, batch, accepted, now) && OneEdgeEach(edges)
    requires Fenced(batch, active) && forall p :: p in batch ==> p.edge in edges
    ensures OutputsUntouched(edges, active, before, after)
  {
    hide Fits;
    if accepted {
      forall e | e in edges && e.Crosses(active) && e.channel in before
        ensures e.channel in after && SameContents(before[e.channel], after[e.channel])
      {
        forall i | 0 <= i < |batch| ensures Items(batch)[i].channel != e.channel {
          assert batch[i] in batch;
        }
        CommitElsewhere(before, Items(batch), now, e.channel);
      }
    }
  }

  /** How far a publication got: the first n edges of its endpoint were willing and hold it; all of them if it was
      accepted, and otherwise the next one was not willing. */
  ghost predicate StagedUpTo(st: Stages, l: Ledger, l': Ledger, edges: seq<RoutedEdge>, n: nat, payload: Payload,
                             stamp: Option<Stamp>, accepted: bool)
  {
    && n <= |edges| && (accepted <==> n == |edges|) && (forall i :: 0 <= i < n ==> Willing(st, edges[i]))
    && (n < |edges| ==> !Willing(st, edges[n])) && LedgerGrows(l, l', edges, n, payload, stamp)
  }

  /** A fan-out: accepted exactly when all edges were willing beforehand. It is all or nothing exactly when they
      were, or when already the first one was not; then nothing changes at all. Every async queue has taken what
      was staged. */
  ghost predicate FannedTo(st: Stages, l: Ledger, st': Stages, l': Ledger, edges: seq<RoutedEdge>, payload: Payload,
                           stamp: Option<Stamp>, accepted: bool)
  {
    && (exists n: nat :: StagedUpTo(st, l, l', edges, n, payload, stamp, accepted))
    && (accepted <==> AllWilling(st, edges))
    && (accepted || l'.staged == l.staged <==> AllWilling(st, edges) || !Willing(st, edges[0]))
    && (!accepted && !Willing(st, edges[0]) ==> st' == st && l' == l)
    && Took(st, l, st', l')
  }

  /** Every async queue has taken what was staged at its end, and given up what was overwritten at its head. */
  ghost predicate Took(st: Stages, l: Ledger, st': Stages, l': Ledger) {
    && l.staged <= l'.staged && l.overwritten <= l'.overwritten
    && (forall c :: Pending(st', c) == QueueAfter(Pending(st, c), l'.staged[|l.staged|..], c))
    && forall c :: Pending(st, c) + OfChannel(l'.staged[|l.staged|..], c) == OfChannel(l'.overwritten[|l.overwritten|..], c) + Pending(st', c)
  }

  lemma TookNothing(st: Stages, l: Ledger)
    ensures Took(st, l, st, l)
  {
    hide Pending;
    assert l.staged[|l.staged|..] == [] == l.overwritten[|l.overwritten|..];
  }

  lemma TookOne(st: Stages, l: Ledger, mid: Stages, m: Ledger, st': Stages, l': Ledger, p: Routed)
    requires Took(st, l, mid, m) && l'.staged == m.staged + [p]
    requires p.edge.Async() ==> Pending(st', p.edge.channel) == Enqueued(Pending(mid, p.edge.channel), p)
    requires forall c :: !p.edge.Async() || c != p.edge.channel ==> Pending(st', c) == Pending(mid, c)
    requires l'.overwritten == m.overwritten + Evictee(mid, p.edge)
    ensures Took(st, l, st', l')
  {
    hide Pending, QueueAfter, OfChannel, Evictee;
    var more, gone := m.staged[|l.staged|..], m.overwritten[|l.overwritten|..];
    assert l'.staged[|l.staged|..] == more + [p] && l'.overwritten[|l.overwritten|..] == gone + Evictee(mid, p.edge);
    forall c ensures Pending(st', c) == QueueAfter(Pending(st, c), more + [p], c)
      ensures Pending(st, c) + OfChannel(more + [p], c) == OfChannel(gone + Evictee(mid, p.edge), c) + Pending(st', c)
    {
      QueueAfterOne(Pending(st, c), more, p, c);
      OfChannelConcat(more, [p], c);
      OfChannelOne(p, c);
      OfChannelConcat(gone, Evictee(mid, p.edge), c);
      EvicteeOn(mid, p.edge, c);
      TookAt(Pending(st, c), OfChannel(more, c), OfChannel(gone, c), Pending(mid, c), p);
    }
  }

  /** What makes way for one more publication on an edge. */
  function Evictee(st: Stages, e: RoutedEdge): seq<Routed> {
    var q := Pending(st, e.channel);
    if e.Async() && AtLimit(q, e) && q != [] then [q[0]] else []
  }

  lemma EvicteeOn(st: Stages, e: RoutedEdge, c: Id)
    ensures var q := Pending(st, c);
      OfChannel(Evictee(st, e), c) == if e.Async() && e.channel == c && AtLimit(q, e) && q != [] then [q[0]] else []
  {
    var q := Pending(st, e.channel);
    OfChannelIn(st.ready, e.channel);
    OfChannelIn(st.nextEpoch, e.channel);
    OfChannelIn(st.composite, e.channel);
    if q != [] {
      assert q[0] in q;
      OfChannelOne(q[0], c);
    }
  }

  lemma TookAt(q: seq<Routed>, more: seq<Routed>, gone: seq<Routed>, mid: seq<Routed>, p: Routed)
    requires q + more == gone + mid
    ensures AtLimit(mid, p.edge) && mid != [] ==> q + (more + [p]) == (gone + [mid[0]]) + Enqueued(mid, p)
    ensures !(AtLimit(mid, p.edge) && mid != []) ==> q + (more + [p]) == (gone + []) + Enqueued(mid, p)
    ensures q + (more + []) == (gone + []) + mid
  {
    assert more + [] == more && gone + [] == gone;
    assert q + (more + [p]) == (q + more) + [p] == (gone + mid) + [p];
    if AtLimit(mid, p.edge) && mid != [] {
      assert mid == [mid[0]] + mid[1..];
    }
  }

  /** The router's fan-out is atomic exactly when every edge is willing to take the publication, or when the first
      one already is not. */
  lemma FanOutAtomic(st: Stages, l: Ledger, l': Ledger, edges: seq<RoutedEdge>, n: nat, payload: Payload, stamp: Option<Stamp>, accepted: bool)
    requires StagedUpTo(st, l, l', edges, n, payload, stamp, accepted)
    ensures accepted <==> AllWilling(st, edges)
    ensures !AllWilling(st, edges) ==> edges != []
    ensures accepted || l'.staged == l.staged <==> AllWilling(st, edges) || !Willing(st, edges[0])
    ensures !accepted && !Willing(st, edges[0]) ==> n == 0
  {
    hide Willing;
    if n < |edges| {
      assert !Willing(st, edges[n]);
    }
  }

  /** The first n edges' queues have taken what was staged, and the later edges' queues are as they were. */
  ghost predicate QueuesAfter(st: Stages, st': Stages, l: Ledger, l': Ledger, edges: seq<RoutedEdge>, n: nat) {
    && n <= |edges| && Took(st, l, st', l')
    && forall j :: n <= j < |edges| ==> Pending(st', edges[j].channel) == Pending(st, edges[j].channel)
  }

  lemma QueuesFirst(st: Stages, l: Ledger, edges: seq<RoutedEdge>)
    ensures QueuesAfter(st, st, l, l, edges, 0)
  {
    hide Took;
    TookNothing(st, l);
  }

  lemma QueuesTo(st: Stages, st': Stages, l: Ledger, l': Ledger, edges: seq<RoutedEdge>, n: nat)
    requires QueuesAfter(st, st', l, l', edges, n)
    ensures Took(st, l, st', l')
  {
  }

  /** An edge that was not reached yet is as willing as it was. */
  lemma WillingStill(st: Stages, st': Stages, l: Ledger, l': Ledger, edges: seq<RoutedEdge>, n: nat)
    requires QueuesAfter(st, st', l, l', edges, n) && n < |edges|
    ensures Willing(st', edges[n]) <==> Willing(st, edges[n])
  {
    hide Pending, Took;
  }

  lemma QueuesOne(st: Stages, mid: Stages, st': Stages, l: Ledger, m: Ledger, l': Ledger, edges: seq<RoutedEdge>, n: nat, p: Routed)
    requires QueuesAfter(st, mid, l, m, edges, n) && n < |edges| && DistinctChannels(edges)
    requires l'.staged == m.staged + [p] && p.edge == edges[n] && l'.overwritten == m.overwritten + Evictee(mid, p.edge)
    requires p.edge.Async() ==> Pending(st', p.edge.channel) == Enqueued(Pending(mid, p.edge.channel), p)
    requires forall c :: !p.edge.Async() || c != p.edge.channel ==> Pending(st', c) == Pending(mid, c)
    ensures QueuesAfter(st, st', l, l', edges, n + 1)
  {
    hide Pending, Took, Enqueued, Evictee;
    TookOne(st, l, mid, m, st', l', p);
  }

  lemma GrowsNone(l: Ledger, edges: seq<RoutedEdge>, payload: Payload, stamp: Option<Stamp>)
    ensures LedgerGrows(l, l, edges, 0, payload, stamp)
  {
  }

  ghost predicate LedgerGrows(l: Ledger, l': Ledger, edges: seq<RoutedEdge>, n: nat, payload: Payload, stamp: Option<Stamp>) {
    && n <= |edges| && |l'.staged| == |l.staged| + n && l.staged <= l'.staged && l.overwritten <= l'.overwritten
    && l'.committed == l.committed && l'.discarded == l.discarded && l'.lost == l.lost
    && forall i :: 0 <= i < n ==> l'.staged[|l.staged| + i] == Routed(|l.staged| + i, edges[i], payload, stamp)
  }

  lemma LedgerGrowsOne(l: Ledger, m: Ledger, l': Ledger, edges: seq<RoutedEdge>, n: nat, payload: Payload,
                       stamp: Option<Stamp>, p: Routed)
    requires LedgerGrows(l, m, edges, n, payload, stamp) && n < |edges|
    requires p == Routed(|m.staged|, edges[n], payload, stamp) && l'.staged == m.staged + [p]
    requires m.overwritten <= l'.overwritten && l'.committed == m.committed && l'.discarded == m.discarded && l'.lost == m.lost
    ensures LedgerGrows(l, l', edges, n + 1, payload, stamp)
  {
  }

  lemma EdgeListed(table: RoutingTable, k: Id, i: nat)
    requires k in table && i < |table[k]|
    ensures table[k][i] in EdgesIn(table)
  {
  }

  lemma LostIff(l: Ledger, batch: seq<Routed>)
    ensures l.lost + batch == [] <==> l.lost == [] && batch == []
  {
  }

  method SplitStage(s: seq<Routed>) returns (batch: seq<Routed>, deferred: seq<Routed>)
    ensures batch == Immediates(s) && deferred == Deferreds(s)
  {
    batch, deferred := [], [];
    for i := 0 to |s|
      invariant batch == Immediates(s[..i]) && deferred == Deferreds(s[..i])
    {
      assert s[..i + 1][..i] == s[..i] && s[..i + 1][i] == s[i];
      if s[i].edge.kind == Immediate {
        batch := batch + [s[i]];
      } else {
        deferred := deferred + [s[i]];
      }
    }
    assert s[..|s|] == s;
  }

  method CountAsync(s: seq<Routed>) returns (count: nat)
    ensures count == AsyncCount(s)
  {
    count := 0;
    for i := 0 to |s|
      invariant count == AsyncCount(s[..i])
    {
      assert s[..i + 1][..i] == s[..i] && s[..i + 1][i] == s[i];
      if s[i].edge.Async() {
        count := count + 1;
      }
    }
    assert s[..|s|] == s;
  }

  /** Every endpoint's edges, in declaration order. */
  ghost predicate TableBuilt(edges: seq<ChannelEdge>, table: RoutingTable) {
    forall k :: (if k in table then table[k] else []) == RoutesFrom(edges, k)
  }

  ghost function RoutesFrom(edges: seq<ChannelEdge>, endpoint: Id): seq<RoutedEdge> {
    if edges == [] then []
    else
      var e := edges[|edges| - 1];
      RoutesFrom(edges[..|edges| - 1], endpoint) + if e.from == endpoint then [RouteOf(e)] else []
  }

  /** The router knows the edge as it was declared. */
  ghost predicate RoutedAs(e: ChannelEdge, r: RoutedEdge) {
    && r.channel == e.id && r.source == ComponentOf(e.from) && r.target == ComponentOf(e.to) && r.kind == e.kind
    && r.maxInflight == e.policy.maxInflight && r.overflow == e.policy.overflow
  }

  ghost predicate FromDeclared(edges: seq<ChannelEdge>, k: Id, r: RoutedEdge) {
    exists e :: e in edges && e.from == k && RoutedAs(e, r)
  }

  ghost predicate AllDeclared(edges: seq<ChannelEdge>, table: RoutingTable) {
    forall k, i :: k in table && 0 <= i < |table[k]| ==> FromDeclared(edges, k, table[k][i])
  }

  lemma {:induction false} RoutesDeclared(edges: seq<ChannelEdge>, k: Id)
    ensures forall i :: 0 <= i < |RoutesFrom(edges, k)| ==> FromDeclared(edges, k, RoutesFrom(edges, k)[i])
  {
    hide ComponentOf;
    if edges != [] {
      var front, e, r := edges[..|edges| - 1], edges[|edges| - 1], RoutesFrom(edges, k);
      RoutesDeclared(front, k);
      assert edges == front + [e];
      forall i | 0 <= i < |r| ensures FromDeclared(edges, k, r[i]) {
        if i < |RoutesFrom(front, k)| {
          assert r[i] == RoutesFrom(front, k)[i];
          var x :| x in front && x.from == k && RoutedAs(x, r[i]);
          assert x in edges;
        } else {
          assert e in edges && RoutedAs(e, r[i]);
        }
      }
    }
  }

  lemma TableDeclared(edges: seq<ChannelEdge>, table: RoutingTable)
    requires TableBuilt(edges, table)
    ensures AllDeclared(edges, table)
  {
    hide FromDeclared, RoutesFrom;
    forall k, i | k in table && 0 <= i < |table[k]| ensures FromDeclared(edges, k, table[k][i]) {
      RoutesDeclared(edges, k);
      assert table[k] == RoutesFrom(edges, k);
    }
  }

  lemma TableAdd(edges: seq<ChannelEdge>, e: ChannelEdge, table: RoutingTable)
    requires TableBuilt(edges, table)
    ensures TableBuilt(edges + [e], table[e.from := (if e.from in table then table[e.from] else []) + [RouteOf(e)]])
  {
    hide RouteOf;
    assert (edges + [e])[..|edges|] == edges && (edges + [e])[|edges|] == e;
    forall k ensures RoutesFrom(edges + [e], k) == RoutesFrom(edges, k) + if k == e.from then [RouteOf(e)] else [] {
    }
  }

  lemma {:induction false} RoutesFromEdges(edges: seq<ChannelEdge>, endpoint: Id)
    ensures forall r :: r in RoutesFrom(edges, endpoint) ==> exists i :: 0 <= i < |edges| && r == RouteOf(edges[i])
  {
    hide RouteOf;
    if edges != [] {
      var front := edges[..|edges| - 1];
      RoutesFromEdges(front, endpoint);
      forall r | r in RoutesFrom(edges, endpoint) ensures exists i :: 0 <= i < |edges| && r == RouteOf(edges[i]) {
        if r in RoutesFrom(front, endpoint) {
          var i :| 0 <= i < |front| && r == RouteOf(front[i]);
          assert front[i] == edges[i];
        }
      }
    }
  }

  lemma EdgeOrigin(edges: seq<ChannelEdge>, table: RoutingTable, e: RoutedEdge) returns (i: nat)
    requires TableBuilt(edges, table) && e in EdgesIn(table)
    ensures i < |edges| && e == RouteOf(edges[i])
  {
    hide RouteOf;
    var k, m :| k in table && 0 <= m < |table[k]| && e == table[k][m];
    RoutesFromEdges(edges, k);
    assert e in RoutesFrom(edges, k);
    i :| 0 <= i < |edges| && e == RouteOf(edges[i]);
  }

  lemma TableUnique(edges: seq<ChannelEdge>, table: RoutingTable)
    requires TableBuilt(edges, table) && forall i, j :: 0 <= i < j < |edges| ==> edges[i].id != edges[j].id
    ensures OneEdgeEach(EdgesIn(table))
  {
    hide TableBuilt, EdgesIn;
    forall e, f | e in EdgesIn(table) && f in EdgesIn(table) && e.channel == f.channel ensures e == f {
      var i := EdgeOrigin(edges, table, e);
      var j := EdgeOrigin(edges, table, f);
      assert edges[i].id == edges[j].id;
    }
  }

  lemma {:induction false} RoutesDistinct(edges: seq<ChannelEdge>, endpoint: Id)
    requires forall i, j :: 0 <= i < j < |edges| ==> edges[i].id != edges[j].id
    ensures DistinctChannels(RoutesFrom(edges, endpoint))
  {
    hide ComponentOf;
    if edges != [] {
      var front := edges[..|edges| - 1];
      RoutesDistinct(front, endpoint);
      RoutesFromEdges(front, endpoint);
      forall r | r in RoutesFrom(front, endpoint) ensures r.channel != edges[|edges| - 1].id {
        var i :| 0 <= i < |front| && r == RouteOf(front[i]);
        assert front[i] == edges[i];
      }
    }
  }

  lemma TableDistinct(edges: seq<ChannelEdge>, table: RoutingTable)
    requires TableBuilt(edges, table) && forall i, j :: 0 <= i < j < |edges| ==> edges[i].id != edges[j].id
    ensures forall k :: k in table ==> DistinctChannels(table[k])
  {
    hide DistinctChannels, RoutesFrom;
    forall k | k in table ensures DistinctChannels(table[k]) {
      RoutesDistinct(edges, k);
    }
  }

  method CountOf(s: seq<Routed>, c: Id) returns (count: nat)
    ensures count == |OfChannel(s, c)|
  {
    count := 0;
    for i := 0 to |s|
      invariant count == |OfChannel(s[..i], c)|
    {
      assert s[..i + 1][..i] == s[..i] && s[..i + 1][i] == s[i];
      if s[i].edge.Async() && s[i].edge.channel == c {
        count := count + 1;
      }
    }
    assert s[..|s|] == s;
  }

  lemma FirstOfBound(s: seq<Routed>, c: Id, k: nat)
    requires FirstOf(s, c, k)
    ensures k <= |s|
  {
  }

  lemma EvictedPending(st: Stages, st': Stages, c: Id, victim: Routed)
    requires Evicted(st, st', c, victim)
    ensures Pending(st, c) != [] && Pending(st', c) == Pending(st, c)[1..] && Pending(st, c)[0] == victim
    ensures forall d :: d != c ==> Pending(st', d) == Pending(st, d)
    ensures victim.edge.Async() && victim.edge.channel == c && st'.immediate == st.immediate
    ensures PendingAsync(st) == PendingAsync(st') + 1
    ensures Waiting(st', c) == Tail(Waiting(st, c), 1) && forall d :: d != c ==> Waiting(st', d) == Waiting(st, d)
  {
  }

  /** Async admission at the limit: the head of the channel's queue is gone, and only that. */
  ghost predicate MadeWay(st: Stages, st': Stages, edge: RoutedEdge, l: Ledger, l': Ledger) {
    var q := Pending(st, edge.channel);
    && q != [] && Pending(st', edge.channel) == q[1..]
    && l' == l.(overwritten := l.overwritten + [q[0]])
    && forall d :: d != edge.channel ==> Pending(st', d) == Pending(st, d)
  }

  method FindOf(s: seq<Routed>, c: Id) returns (k: nat)
    ensures FirstOf(s, c, k)
  {
    k := 0;
    while k < |s| && !(s[k].edge.Async() && s[k].edge.channel == c)
      invariant k <= |s| && forall j :: 0 <= j < k ==> !(s[j].edge.Async() && s[j].edge.channel == c)
    {
      k := k + 1;
    }
  }
}
