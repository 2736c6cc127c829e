/** The bus: bounded channels, published to one at a time or in batches, and read with per-reader cursors. */
module ChannelBus {
  import opened Ids
  import opened Messages
  import opened Channels
  import opened ChannelBatch
  import opened GraphSpecs
  import R = ReaderCursors
  import Q = TriggerQueues

  datatype EdgePolicy = EdgePolicy(mode: string, capacity: int, overflow: string, copyPolicy: string, lifespanMs: int,
                                   readers: string, maxInflight: int)

  datatype ChannelEdge = ChannelEdge(id: Id, from: string, to: string, kind: EdgeKind, policy: EdgePolicy)

  function TypeOf(mode: string): ChannelType {
    if mode == "latest" then LatestOnly
    else if mode == "latched" then LatchedSnapshot
    else if mode == "previous_tick" then PreviousTick
    else if mode == "barrier" then Barrier
    else EveryMessage
  }

  function DropPolicyOf(overflow: string): DropPolicy {
    if overflow == "overwrite" then Overwrite
    else if overflow == "drop_oldest" then DropOldest
    else if overflow == "drop_newest" then DropNewest
    else if overflow == "block" then BlockProducer
    else FailFast
  }

  function CopyPolicyOf(value: string): CopyPolicy {
    if value == "shared_view" then SharedView
    else if value == "loaned_view" then LoanedView
    else if value == "move_only" then MoveOnly
    else Copy
  }

  function ConfigOf(e: ChannelEdge): Config {
    Config(e.id, TypeOf(e.policy.mode), if e.policy.capacity > 1 then e.policy.capacity else 1,
           DropPolicyOf(e.policy.overflow), e.policy.lifespanMs * MILLISECOND, CopyPolicyOf(e.policy.copyPolicy),
           e.policy.readers == "multi" || e.policy.readers == "multiple")
  }

  function PortOf(endpoint: string): string {
    var n := AfterLastDot(endpoint);
    if n == 0 then "" else endpoint[n..]
  }

  type Routes = map<Id, seq<Id>>

  /** The listed channels that end in a port; all of them if no port is named. */
  function PortIds(all: seq<Id>, ports: map<Id, string>, port: string): (r: seq<Id>)
    ensures forall c :: c in r ==> c in all
  {
    if all == [] then []
    else
      var c := all[|all| - 1];
      PortIds(all[..|all| - 1], ports, port) + if port == "" || (c in ports && ports[c] == port) then [c] else []
  }

  function Route(routes: Routes, key: Id): seq<Id> {
    if key in routes then routes[key] else []
  }

  /** The channels of the edges that leave an endpoint, in declaration order. */
  ghost function IdsFrom(edges: seq<ChannelEdge>, endpoint: string): seq<Id> {
    if edges == [] then []
    else
      var e := edges[|edges| - 1];
      IdsFrom(edges[..|edges| - 1], endpoint) + if e.from == endpoint then [e.id] else []
  }

  ghost function IdsTo(edges: seq<ChannelEdge>, component: Id): seq<Id> {
    if edges == [] then []
    else
      var e := edges[|edges| - 1];
      IdsTo(edges[..|edges| - 1], component) + if ComponentOf(e.to) == component then [e.id] else []
  }

  ghost predicate RoutesKnown(channels: ChannelMap, routes: Routes) {
    forall k, i :: k in routes && 0 <= i < |routes[k]| ==> routes[k][i] in channels
  }

  /** Every channel is one of the edges', newly opened, under the edge's id. */
  ghost predicate ChannelsBuilt(edges: seq<ChannelEdge>, channels: ChannelMap, ports: map<Id, string>) {
    && (forall e :: e in edges ==> e.id in channels) && ports.Keys == channels.Keys
    && forall c :: c in channels ==> exists e :: e in edges && OpenedFor(e, c, channels[c], ports[c])
  }

  predicate OpenedFor(e: ChannelEdge, id: Id, s: Channel, port: string) {
    e.id == id && s == Opened(ConfigOf(e)) && port == PortOf(e.to)
  }

  /** The configuration says what the edge's policy says: at least one message of capacity, milliseconds as nanoseconds,
      and for unknown words the strictest reading, which is to keep every message, to fail, and to copy. */
  ghost predicate Configured(e: ChannelEdge, c: Config) {
    var p := e.policy;
    && c.id == e.id && c.capacity >= 1 && c.capacity >= p.capacity && (c.capacity == 1 || c.capacity == p.capacity)
    && c.lifespan == p.lifespanMs * 1_000_000 && (c.multiReader <==> p.readers in {"multi", "multiple"})
    && (c.kind == LatestOnly <==> p.mode == "latest") && (c.kind == LatchedSnapshot <==> p.mode == "latched")
    && (c.kind == PreviousTick <==> p.mode == "previous_tick") && (c.kind == Barrier <==> p.mode == "barrier")
    && (c.dropPolicy == Overwrite <==> p.overflow == "overwrite") && (c.dropPolicy == DropOldest <==> p.overflow == "drop_oldest")
    && (c.dropPolicy == DropNewest <==> p.overflow == "drop_newest") && (c.dropPolicy == BlockProducer <==> p.overflow == "block")
    && (c.copyPolicy == SharedView <==> p.copyPolicy == "shared_view") && (c.copyPolicy == LoanedView <==> p.copyPolicy == "loaned_view")
    && (c.copyPolicy == MoveOnly <==> p.copyPolicy == "move_only")
  }

  /** There is one such configuration, and a channel is opened with it. */
  lemma ConfiguredIff(e: ChannelEdge, c: Config)
    ensures Configured(e, c) <==> c == ConfigOf(e)
  {
  }

  /** The port of an endpoint is what stands behind its last dot. */
  lemma PortParts(endpoint: string)
    ensures if '.' in endpoint then '.' !in PortOf(endpoint) && endpoint == ComponentOf(endpoint) + "." + PortOf(endpoint) else PortOf(endpoint) == ""
  {
    LastDot(endpoint);
    var n := AfterLastDot(endpoint);
    if n > 0 {
      assert endpoint == endpoint[..n - 1] + [endpoint[n - 1]] + endpoint[n..];
    }
  }

  ghost predicate SourcesBuilt(edges: seq<ChannelEdge>, sources: Routes) {
    forall k :: Route(sources, k) == IdsFrom(edges, k)
  }

  ghost predicate ComponentsBuilt(edges: seq<ChannelEdge>, components: Routes) {
    forall k :: Route(components, k) == IdsTo(edges, k)
  }

  lemma NothingBuilt()
    ensures ChannelsBuilt([], map[], map[]) && SourcesBuilt([], map[]) && ComponentsBuilt([], map[])
    ensures AllSound(map[]) && RoutesKnown(map[], map[])
  {
  }

  lemma AddChannel(edges: seq<ChannelEdge>, e: ChannelEdge, channels: ChannelMap, ports: map<Id, string>)
    requires AllSound(channels) && ChannelsBuilt(edges, channels, ports)
    ensures AllSound(channels[e.id := Opened(ConfigOf(e))])
    ensures ChannelsBuilt(edges + [e], channels[e.id := Opened(ConfigOf(e))], ports[e.id := PortOf(e.to)])
  {
    hide Opened, ConfigOf, Sound, CursorsBounded;
    EdgeOpens(e);
    var channels', ports' := channels[e.id := Opened(ConfigOf(e))], ports[e.id := PortOf(e.to)];
    forall c | c in channels' ensures exists x :: x in edges + [e] && OpenedFor(x, c, channels'[c], ports'[c]) {
      if c == e.id {
        assert e in edges + [e] && OpenedFor(e, c, channels'[c], ports'[c]);
      } else {
        var x :| x in edges && OpenedFor(x, c, channels[c], ports[c]);
        assert x in edges + [e];
      }
    }
  }

  lemma EdgeOpens(e: ChannelEdge)
    ensures var s := Opened(ConfigOf(e)); Sound(s) && CursorsBounded(s) && s.config.id == e.id
  {
    OpenedSound(ConfigOf(e));
  }

  lemma AddRoutes(edges: seq<ChannelEdge>, e: ChannelEdge, channels: ChannelMap, sources: Routes, components: Routes)
    requires RoutesKnown(channels, sources) && RoutesKnown(channels, components)
    requires SourcesBuilt(edges, sources) && ComponentsBuilt(edges, components)
    ensures var sources' := sources[e.from := Route(sources, e.from) + [e.id]];
      RoutesKnown(channels[e.id := Opened(ConfigOf(e))], sources') && SourcesBuilt(edges + [e], sources')
    ensures var components' := components[ComponentOf(e.to) := Route(components, ComponentOf(e.to)) + [e.id]];
      RoutesKnown(channels[e.id := Opened(ConfigOf(e))], components') && ComponentsBuilt(edges + [e], components')
  {
    hide Route, Opened, ConfigOf;
    forall k
      ensures IdsFrom(edges + [e], k) == IdsFrom(edges, k) + if k == e.from then [e.id] else []
      ensures IdsTo(edges + [e], k) == IdsTo(edges, k) + if k == ComponentOf(e.to) then [e.id] else []
    {
      assert (edges + [e])[..|edges|] == edges && (edges + [e])[|edges|] == e;
    }
    AddRoute(channels, sources, e.from, e.id, Opened(ConfigOf(e)));
    AddRoute(channels, components, ComponentOf(e.to), e.id, Opened(ConfigOf(e)));
    hide RoutesKnown;
  }

  lemma AddRoute(channels: ChannelMap, routes: Routes, key: Id, id: Id, s: Channel)
    requires RoutesKnown(channels, routes)
    ensures RoutesKnown(channels[id := s], routes[key := Route(routes, key) + [id]])
    ensures forall k :: Route(routes[key := Route(routes, key) + [id]], k) == Route(routes, k) + if k == key then [id] else []
  {
    forall k ensures Route(routes[key := Route(routes, key) + [id]], k) == Route(routes, k) + if k == key then [id] else [] {
      assert Route(routes, k) + [] == Route(routes, k);
    }
  }

  /** The items a list of publications stands for; none if one has no payload or an unknown target. */
  ghost function Expanded(channels: ChannelMap, sources: Routes, publications: seq<Publication>): (r: Option<seq<Item>>)
    requires RoutesKnown(channels, sources)
    ensures r.Some? ==> Targets(channels, r.value)
  {
    if publications == [] then Some([])
    else
      var front, p := Expanded(channels, sources, publications[..|publications| - 1]), publications[|publications| - 1];
      if front.None? || p.payload.None? then None
      else if p.toChannel then
        if p.id in channels then Some(front.value + [Item(p.id, p.payload.value, p.stamp)]) else None
      else if p.id in sources then Some(front.value + FanOut(sources[p.id], p.payload.value, p.stamp))
      else None
  }

  function FanOut(ids: seq<Id>, payload: Payload, stamp: Option<Stamp>): seq<Item> {
    seq(|ids|, i requires 0 <= i < |ids| => Item(ids[i], payload, stamp))
  }

  /** If a list expands at all, its items begin with those of every prefix. */
  lemma {:induction false} ExpandedPrefix(channels: ChannelMap, sources: Routes, publications: seq<Publication>, k: nat)
    requires RoutesKnown(channels, sources) && k <= |publications|
    requires Expanded(channels, sources, publications).Some?
    ensures Expanded(channels, sources, publications[..k]).Some?
    ensures Expanded(channels, sources, publications[..k]).value <= Expanded(channels, sources, publications).value
  {
    if k == |publications| {
      assert publications[..k] == publications;
    } else {
      var front := publications[..|publications| - 1];
      ExpandedPrefix(channels, sources, front, k);
      assert front[..k] == publications[..k];
    }
  }

  /** Reading the queue-style and latest-style channels of a list in turn, up to a batch limit over all. */
  ghost function Drained(channels: ChannelMap, ids: seq<Id>, reader: Id, now: int, max: nat): (r: (ChannelMap, seq<Message>))
    requires forall i :: 0 <= i < |ids| ==> ids[i] in channels
    ensures r.0.Keys == channels.Keys
  {
    if ids == [] then (channels, [])
    else
      var (before, messages) := Drained(channels, ids[..|ids| - 1], reader, now, max);
      var id := ids[|ids| - 1];
      if max != 0 && |messages| >= max then (before, messages)
      else if before[id].config.LatestStyle() then
        (before[id := ReadLatest(before[id], reader, now, true)], messages + LatestRead(before[id], reader, now))
      else
        var left := if max == 0 then 0 else max - |messages|;
        (before[id := ReadQueue(before[id], reader, now, left, true)], messages + QueueRead(before[id], reader, now, left))
  }

  /** A batch limit bounds what all channels of a port deliver together, and other channels are not touched. */
  lemma {:induction false} DrainedBounded(channels: ChannelMap, ids: seq<Id>, reader: Id, now: int, max: nat)
    requires forall i :: 0 <= i < |ids| ==> ids[i] in channels
    ensures max != 0 ==> |Drained(channels, ids, reader, now, max).1| <= max
    ensures forall c :: c in channels && c !in ids ==> Drained(channels, ids, reader, now, max).0[c] == channels[c]
  {
    if ids != [] {
      var front, id := ids[..|ids| - 1], ids[|ids| - 1];
      DrainedBounded(channels, front, reader, now, max);
      var (before, messages) := Drained(channels, front, reader, now, max);
      ReadSizes(before[id], reader, now, if max > |messages| then max - |messages| else 0);
      hide ReadLatest, ReadQueue, LatestRead, QueueRead;
      forall c | c in channels && c !in ids ensures Drained(channels, ids, reader, now, max).0[c] == channels[c] {
        assert c != id && c !in front;
      }
    }
  }

  lemma ReadSizes(s: Channel, reader: Id, now: int, max: nat)
    ensures |LatestRead(s, reader, now)| <= 1 && (max != 0 ==> |QueueRead(s, reader, now, max)| <= max)
  {
  }

  /** Everything that was ever done to each channel. */
  type Histories = map<Id, seq<R.Step>>

  /** Every channel is what a run of its history makes of a newly opened one. */
  ghost predicate Traced(channels: ChannelMap, history: Histories) {
    history.Keys == channels.Keys && forall c :: c in channels ==> channels[c] == R.Run(channels[c].config, history[c], true)
  }

  ghost function Recorded(history: Histories, id: Id, step: R.Step): Histories
    requires id in history
  {
    history[id := history[id] + [step]]
  }

  /** One publication as a channel receives it. */
  type Sending = (Payload, Option<Stamp>)

  /** What was published to a channel, in order. */
  ghost function Sendings(h: seq<R.Step>): seq<Sending> {
    if h == [] then []
    else Sendings(h[..|h| - 1]) + StepSending(h[|h| - 1])
  }

  ghost function StepSending(step: R.Step): seq<Sending> {
    if step.Publish? then [(step.payload, step.stamp)] else []
  }

  function ItemSendings(items: seq<Item>, c: Id): seq<Sending> {
    if items == [] then []
    else
      var x := items[|items| - 1];
      ItemSendings(items[..|items| - 1], c) + if x.channel == c then [(x.payload, x.stamp)] else []
  }

  lemma {:induction false} ItemSendingsConcat(a: seq<Item>, b: seq<Item>, c: Id)
    ensures ItemSendings(a + b, c) == ItemSendings(a, c) + ItemSendings(b, c)
  {
    if b == [] {
      assert a + b == a;
    } else {
      assert (a + b)[..|a + b| - 1] == a + b[..|b| - 1];
      ItemSendingsConcat(a, b[..|b| - 1], c);
    }
  }

  /** Since then, exactly these items were published, each to its channel. */
  ghost predicate SentMore(h: Histories, h': Histories, items: seq<Item>) {
    h'.Keys == h.Keys && forall c :: c in h ==> Sendings(h'[c]) == Sendings(h[c]) + ItemSendings(items, c)
  }

  lemma SentNothing(h: Histories)
    ensures SentMore(h, h, [])
  {
  }

  function StepItems(id: Id, step: R.Step): seq<Item> {
    if step.Publish? then [Item(id, step.payload, step.stamp)] else []
  }

  lemma SentStep(h: Histories, id: Id, step: R.Step)
    requires id in h
    ensures SentMore(h, Recorded(h, id, step), StepItems(id, step))
  {
    var h' := Recorded(h, id, step);
    assert h'[id][..|h[id]|] == h[id] && h'[id][|h[id]|] == step;
    if step.Publish? {
      var x := Item(id, step.payload, step.stamp);
      assert [x][..0] == [];
    }
  }

  lemma SentChain(a: Histories, b: Histories, c: Histories, first: seq<Item>, second: seq<Item>)
    requires SentMore(a, b, first) && SentMore(b, c, second)
    ensures SentMore(a, c, first + second)
  {
    hide Sendings, ItemSendings;
    forall k | k in a ensures Sendings(c[k]) == Sendings(a[k]) + ItemSendings(first + second, k) {
      ItemSendingsConcat(first, second, k);
    }
  }

  lemma SentNoMore(a: Histories, b: Histories, c: Histories)
    requires SentMore(a, b, []) && SentMore(b, c, [])
    ensures SentMore(a, c, [])
  {
  }

  /** The messages of one channel. */
  function FromChannel(s: seq<Message>, c: Id): seq<Message> {
    if s == [] then []
    else
      var m := s[|s| - 1];
      FromChannel(s[..|s| - 1], c) + if m.channel == c then [m] else []
  }

  lemma {:induction false} FromChannelConcat(a: seq<Message>, b: seq<Message>, c: Id)
    ensures FromChannel(a + b, c) == FromChannel(a, c) + FromChannel(b, c)
  {
    if b == [] {
      assert a + b == a;
    } else {
      assert (a + b)[..|a + b| - 1] == a + b[..|b| - 1];
      FromChannelConcat(a, b[..|b| - 1], c);
    }
  }

  lemma {:induction false} FromChannelAlone(s: seq<Message>, id: Id, c: Id)
    requires forall m :: m in s ==> m.channel == id
    ensures FromChannel(s, c) == if c == id then s else []
  {
    if s != [] {
      FromChannelAlone(s[..|s| - 1], id, c);
      assert s == s[..|s| - 1] + [s[|s| - 1]];
    }
  }

  /** What the bus handed out, reader by reader, is what the channels' histories say each reader received. */
  ghost predicate HandedRight(channels: ChannelMap, history: Histories, handed: Q.Log) {
    forall c, r :: c in channels && c in history ==>
      FromChannel(Q.OnPort(handed, r), c) == R.Received(channels[c].config, history[c], true, r)
  }

  lemma NothingHanded(channels: ChannelMap)
    ensures HandedRight(channels, map c | c in channels :: [], [])
  {
  }

  /** One more step of one channel: a read hands out its output to its reader, any other step hands out nothing. */
  lemma HandedStep(channels: ChannelMap, history: Histories, handed: Q.Log, id: Id, step: R.Step)
    requires AllSound(channels) && Traced(channels, history) && HandedRight(channels, history, handed) && id in channels
    ensures HandedRight(channels[id := R.Apply(channels[id], step, true)], Recorded(history, id, step),
                        handed + HandedBy(channels[id], step))
  {
    hide AllSound, R.Apply, R.Run, R.Received, R.Given, R.Output, Q.OnPort, Q.Tagged, FromChannel, R.Labelled, HandedBy;
    var s := channels[id];
    var channels', history' := channels[id := R.Apply(s, step, true)], Recorded(history, id, step);
    R.RunLabelled(s.config, history[id], true);
    IdMatches(channels, id);
    R.ApplyLabelled(s, step, true);
    forall c, r | c in channels' && c in history'
      ensures FromChannel(Q.OnPort(handed + HandedBy(s, step), r), c) == R.Received(channels'[c].config, history'[c], true, r)
    {
      Q.OnPortConcat(handed, HandedBy(s, step), r);
      FromChannelConcat(Q.OnPort(handed, r), Q.OnPort(HandedBy(s, step), r), c);
      HandedByOn(s, step, r, c);
      if c == id {
        ReceivedLonger(s.config, history[id], step, r);
      }
    }
  }

  ghost function HandedBy(s: Channel, step: R.Step): Q.Log {
    if step.Read? then Q.Tagged(step.reader, R.Output(s, step.reader, step.now, step.max)) else []
  }

  lemma HandedByOn(s: Channel, step: R.Step, r: Id, c: Id)
    requires R.Labelled(s)
    ensures FromChannel(Q.OnPort(HandedBy(s, step), r), c) == if c == s.config.id then R.Given(s, step, r) else []
  {
    hide R.Output, R.Labelled, Q.Tagged;
    if step.Read? {
      Q.OnPortTagged(step.reader, R.Output(s, step.reader, step.now, step.max), r);
      R.OutputLabelled(s, step.reader, step.now, step.max);
      FromChannelAlone(R.Output(s, step.reader, step.now, step.max), s.config.id, c);
    }
  }

  lemma ReceivedLonger(config: Config, steps: seq<R.Step>, step: R.Step, r: Id)
    ensures R.Received(config, steps + [step], true, r) ==
      R.Received(config, steps, true, r) + R.Given(R.Run(config, steps, true), step, r)
  {
    hide R.Given, R.Run;
    assert (steps + [step])[..|steps|] == steps;
  }

  lemma TakeStep(channels: ChannelMap, history: Histories, id: Id, step: R.Step)
    requires AllSound(channels) && Traced(channels, history) && id in channels
    ensures AllSound(channels[id := R.Apply(channels[id], step, true)])
    ensures Traced(channels[id := R.Apply(channels[id], step, true)], Recorded(history, id, step))
  {
    hide Sound, CursorsBounded, R.Apply, R.Run;
    R.ApplySound(channels[id], step, true);
    RunLonger(channels[id].config, history[id], step);
  }

  lemma RunLonger(config: Config, steps: seq<R.Step>, step: R.Step)
    ensures R.Run(config, steps + [step], true) == R.Apply(R.Run(config, steps, true), step, true)
  {
    hide R.Apply;
    assert (steps + [step])[..|steps|] == steps;
  }

  lemma JustOpened(edges: seq<ChannelEdge>, channels: ChannelMap, ports: map<Id, string>)
    requires ChannelsBuilt(edges, channels, ports)
    ensures Traced(channels, map c | c in channels :: [])
  {
    hide Opened, ConfigOf, PortOf;
    forall c | c in channels ensures channels[c] == R.Run(channels[c].config, [], true) {
      var e :| e in edges && OpenedFor(e, c, channels[c], ports[c]);
      OpenedAgain(ConfigOf(e));
    }
  }

  lemma OpenedAgain(config: Config)
    ensures Opened(config) == R.Run(Opened(config).config, [], true)
  {
  }

  class RuntimeChannelBus {
    const sources: Routes
    const components: Routes
    const ports: map<Id, string>
    var channels: ChannelMap
    ghost var history: Histories
    /** Every message ever handed out, tagged with its reader. */
    ghost var handed: Q.Log

    ghost predicate Valid()
      reads this
    {
      && AllSound(channels) && RoutesKnown(channels, sources) && RoutesKnown(channels, components)
      && ports.Keys == channels.Keys && Traced(channels, history) && HandedRight(channels, history, handed)
    }

    /** One channel per edge, reachable from the edge's source endpoint and from its target component. */
    constructor (edges: seq<ChannelEdge>)
      ensures Valid() && handed == [] && forall c :: c in history ==> history[c] == []
      ensures ChannelsBuilt(edges, channels, ports) && SourcesBuilt(edges, sources) && ComponentsBuilt(edges, components)
    {
      var wired, portNames, fromSource, toComponent := Wire(edges);
      channels, ports, sources, components := wired, portNames, fromSource, toComponent;
      history := map c | c in wired :: [];
      handed := [];
      JustOpened(edges, wired, portNames);
      NothingHanded(wired);
    }

    static method Wire(edges: seq<ChannelEdge>)
      returns (channels: ChannelMap, ports: map<Id, string>, sources: Routes, components: Routes)
      ensures AllSound(channels) && RoutesKnown(channels, sources) && RoutesKnown(channels, components)
      ensures ChannelsBuilt(edges, channels, ports) && SourcesBuilt(edges, sources) && ComponentsBuilt(edges, components)
    {
      hide *;
      channels, ports, sources, components := map[], map[], map[], map[];
      NothingBuilt();
      assert edges[..0] == [];
      for i := 0 to |edges|
        invariant AllSound(channels) && RoutesKnown(channels, sources) && RoutesKnown(channels, components)
        invariant ChannelsBuilt(edges[..i], channels, ports)
        invariant SourcesBuilt(edges[..i], sources) && ComponentsBuilt(edges[..i], components)
      {
        var e := edges[i];
        assert edges[..i + 1] == edges[..i] + [e];
        AddChannel(edges[..i], e, channels, ports);
        AddRoutes(edges[..i], e, channels, sources, components);
        channels := channels[e.id := Opened(ConfigOf(e))];
        ports := ports[e.id := PortOf(e.to)];
        sources := sources[e.from := Route(sources, e.from) + [e.id]];
        components := components[ComponentOf(e.to) := Route(components, ComponentOf(e.to)) + [e.id]];
      }
      assert edges[..|edges|] == edges;
    }

    /** Every change of a channel is one step of its run. */
    method Put(id: Id, s: Channel, ghost step: R.Step)
      requires Valid() && id in channels && s == R.Apply(channels[id], step, true) && !step.Read?
      modifies this`channels, this`history
      ensures Valid() && channels == old(channels)[id := s] && history == Recorded(old(history), id, step)
      ensures SentMore(old(history), history, StepItems(id, step))
    {
      hide AllSound, Traced, HandedRight, R.Apply, SentMore, StepItems;
      TakeStep(channels, history, id, step);
      HandedStep(channels, history, handed, id, step);
      assert handed + [] == handed;
      assert id in history by { HistoryKept(channels, history, id); }
      SentStep(history, id, step);
      history := Recorded(history, id, step);
      channels := channels[id := s];
    }

    /** A read is a step of the channel's run, and hands out what it delivers. */
    method PutRead(id: Id, s: Channel, reader: Id, ghost now: int, ghost max: nat, ghost messages: seq<Message>)
      requires Valid() && id in channels && s == R.Apply(channels[id], R.Read(reader, now, max), true)
      requires messages == R.Output(channels[id], reader, now, max)
      modifies this`channels, this`history, this`handed
      ensures Valid() && channels == old(channels)[id := s] && history == Recorded(old(history), id, R.Read(reader, now, max))
      ensures SentMore(old(history), history, []) && handed == old(handed) + Q.Tagged(reader, messages)
    {
      hide AllSound, Traced, HandedRight, R.Apply, SentMore, R.Output, Q.Tagged;
      ghost var step := R.Read(reader, now, max);
      TakeStep(channels, history, id, step);
      HandedStep(channels, history, handed, id, step);
      assert id in history by { HistoryKept(channels, history, id); }
      SentStep(history, id, step);
      history := Recorded(history, id, step);
      handed := handed + Q.Tagged(reader, messages);
      channels := channels[id := s];
    }

    /** Publishes to one channel: a full queue turns the message away or gives up its oldest, by policy. */
    method PublishToState(id: Id, payload: Payload, now: int, stamp: Option<Stamp>) returns (accepted: bool)
      requires Valid() && id in channels
      modifies this`channels, this`history
      ensures Valid() && accepted == !Full(old(channels)[id])
      ensures channels == old(channels)[id := Published(old(channels)[id], payload, now, stamp)]
      ensures SentMore(old(history), history, [Item(id, payload, stamp)])
    {
      hide AllSound, RoutesKnown, Traced, HandedRight, Accepted, SentMore, Recorded;
      var s := channels[id];
      IdMatches(channels, id);
      var message := Message(id, s.next, payload, now, now, stamp);
      if !s.config.LatestStyle() && |s.queue| >= s.config.capacity && s.config.Rejecting() {
        var dropped := if s.config.dropPolicy == BlockProducer then 0 else 1;
        s := s.(next := s.next + 1,
                counts := s.counts.(dropped := s.counts.dropped + dropped, rejected := s.counts.rejected + 1));
        accepted := false;
      } else {
        s := AcceptMessage(s, message);
        accepted := true;
      }
      Put(id, s, R.Publish(payload, now, stamp));
    }

    method AcceptMessage(before: Channel, message: Message) returns (s: Channel)
      ensures s == Accepted(before, message)
    {
      hide Bounded;
      s := before.(next := before.next + 1, counts := before.counts.(published := before.counts.published + 1));
      if s.config.kind == PreviousTick {
        if s.pending.Some? {
          s := s.(counts := s.counts.(overwritten := s.counts.overwritten + 1));
        }
        s := s.(pending := Some(message), depth := (if s.latest.Some? then 1 else 0) + 1);
      } else if s.config.LatestStyle() {
        if s.config.kind == LatestOnly && s.depth > 0 {
          s := s.(counts := s.counts.(overwritten := s.counts.overwritten + 1));
        }
        s := s.(latest := Some(message), queue := [], depth := 1);
      } else {
        s := PushBounded(s.(latest := Some(message)), message);
      }
    }

    /** Appends a message, then pops the oldest while the queue is over its capacity. */
    method PushBounded(before: Channel, message: Message) returns (s: Channel)
      ensures var q := Bounded(before.queue + [message], before.config.capacity);
        s == before.(queue := q, depth := |q|,
                     counts := before.counts.(overwritten := before.counts.overwritten + |before.queue| + 1 - |q|))
    {
      var q := before.queue + [message];
      ghost var all := q;
      var lost := 0;
      while |q| > before.config.capacity
        invariant lost + |q| == |all| && q == all[lost..]
        invariant lost == 0 || |q| >= before.config.capacity
      {
        q := q[1..];
        lost := lost + 1;
      }
      s := before.(queue := q, depth := |q|, counts := before.counts.(overwritten := before.counts.overwritten + lost));
    }

    /** Whether a publication would be accepted on top of those already planned. A refusal is only tallied. */
    method Preflight(id: Id, payload: Payload, planned: nat) returns (accepted: bool)
      requires Valid() && id in channels
      modifies this`channels, this`history
      ensures Valid()
      ensures accepted == (old(channels)[id].config.Carries(payload) && Room(old(channels)[id], planned + 1))
      ensures accepted <==>
        var s := old(channels)[id];
        && (s.config.copyPolicy != Copy || payload.text)
        && (s.config.kind in {LatestOnly, LatchedSnapshot, PreviousTick} || s.config.dropPolicy in {Overwrite, DropOldest} ||
            |s.queue| + planned < s.config.capacity)
      ensures accepted ==> channels == old(channels) && history == old(history)
      ensures !accepted ==>
        var s := old(channels)[id];
        channels == if !s.config.Carries(payload) then old(channels)
                    else old(channels)[id := Tallied(s, if s.config.dropPolicy == BlockProducer then 0 else 1)]
      ensures AllSameContents(old(channels), channels) && SentMore(old(history), history, [])
    {
      hide AllSound, RoutesKnown, Traced, HandedRight, SentMore, Recorded;
      SentNothing(history);
      var s := channels[id];
      if !s.config.Carries(payload) {
        return false;
      }
      if s.config.LatestStyle() || |s.queue| + planned < s.config.capacity || !s.config.Rejecting() {
        return true;
      }
      var dropped := if s.config.dropPolicy == BlockProducer then 0 else 1;
      Put(id, Tallied(s, dropped), R.Refuse(dropped));
      accepted := false;
    }

    /** Preflights items on top of a fitting plan, stopping at the first that does not fit. */
    method Plan(items: seq<Item>, todo: seq<Item>, planned: map<Id, nat>)
      returns (accepted: bool, items': seq<Item>, planned': map<Id, nat>)
      requires Valid() && Targets(channels, items) && Targets(channels, todo)
      requires Fits(channels, items) && Plans(planned, items)
      modifies this`channels, this`history
      ensures Valid() && AllSameContents(old(channels), channels) && SentMore(old(history), history, [])
      ensures Targets(old(channels), items + todo) && accepted == Fits(old(channels), items + todo)
      ensures accepted ==> channels == old(channels) && history == old(history) && items' == items + todo && Plans(planned', items')
    {
      hide AllSound, Traced, HandedRight, AllSameContents, Fits, Room, Plans, Count, SentMore;
      SentNothing(history);
      items', planned' := items, planned;
      assert items + [] == items && todo[..0] == [];
      for i := 0 to |todo|
        invariant channels == old(channels) && history == old(history) && items' == items + todo[..i]
        invariant Targets(channels, items') && Fits(channels, items') && Plans(planned', items')
      {
        var x := todo[i];
        assert todo[..i + 1] == todo[..i] + [x];
        assert items' + [x] == items + todo[..i + 1];
        FitsOneMore(channels, items', x);
        var already := if x.channel in planned' then planned'[x.channel] else 0;
        PlansOneMore(planned', items', x);
        accepted := Preflight(x.channel, x.payload, already);
        if !accepted {
          assert (items' + [x]) + todo[i + 1..] == items + todo;
          NoFitPrefix(old(channels), items' + [x], todo[i + 1..]);
          return;
        }
        planned' := planned'[x.channel := already + 1];
        items' := items' + [x];
      }
      assert todo[..|todo|] == todo;
      SameContentsRefl(channels);
      accepted := true;
    }

    /** Publishes a batch that fits. Every publication is accepted. */
    method CommitItems(items: seq<Item>, now: int) returns (accepted: bool)
      requires Valid() && Targets(channels, items) && Fits(channels, items)
      modifies this`channels, this`history
      ensures Valid() && accepted && channels == Commit(old(channels), items, now)
      ensures SentMore(old(history), history, items)
    {
      hide AllSound, Traced, HandedRight, Published, SentMore;
      accepted := true;
      var k := 0;
      SentNothing(history);
      assert items[..0] == [];
      while k < |items| && accepted
        invariant k <= |items| && Valid() && accepted
        invariant Targets(old(channels), items[..k]) && channels == Commit(old(channels), items[..k], now)
        invariant SentMore(old(history), history, items[..k])
      {
        var x := items[k];
        NeverFull(old(channels), items, k, now);
        assert items[..k + 1][..k] == items[..k];
        ghost var h := history;
        accepted := PublishToState(x.channel, x.payload, now, x.stamp);
        SentChain(old(history), h, history, items[..k], [x]);
        assert items[..k] + [x] == items[..k + 1];
        k := k + 1;
      }
      assert items[..|items|] == items;
    }

    /** All or nothing: a batch is accepted exactly when all its publications have known targets and fit
        together, and then all are published; otherwise no channel changes but for the tallies of refusals. */
    method PublishBatch(publications: seq<Publication>, now: int) returns (accepted: bool)
      requires Valid()
      modifies this`channels, this`history
      ensures Valid()
      ensures accepted <==> old(BatchFits(channels, sources, publications))
      ensures accepted ==> channels == Commit(old(channels), Expanded(old(channels), sources, publications).value, now)
      ensures !accepted ==> AllSameContents(old(channels), channels) && SentMore(old(history), history, [])
      ensures accepted ==> SentMore(old(history), history, Expanded(old(channels), sources, publications).value)
    {
      hide AllSound, Traced, HandedRight, SameContents, Fits, Commit, SentMore;
      SentNothing(history);
      var items: seq<Item>, planned: map<Id, nat> := [], map[];
      FitsNothing(channels);
      SameContentsRefl(channels);
      assert publications[..0] == [];
      for i := 0 to |publications|
        invariant channels == old(channels) && history == old(history)
        invariant Expanded(channels, sources, publications[..i]) == Some(items)
        invariant Fits(channels, items) && Plans(planned, items)
      {
        var p := publications[i];
        var todo: seq<Item>;
        assert publications[..i + 1][..i] == publications[..i] && publications[..i + 1][i] == p;
        NoExpansion(channels, sources, publications, i + 1);
        if p.payload.None? {
          return false;
        }
        if p.toChannel {
          if p.id !in channels {
            return false;
          }
          todo := [Item(p.id, p.payload.value, p.stamp)];
        } else {
          if p.id !in sources {
            return false;
          }
          todo := FanOut(sources[p.id], p.payload.value, p.stamp);
        }
        assert Expanded(channels, sources, publications[..i + 1]) == Some(items + todo);
        NoFit(channels, sources, publications, i + 1);
        accepted, items, planned := Plan(items, todo, planned);
        if !accepted {
          return;
        }
      }
      assert publications[..|publications|] == publications;
      accepted := CommitItems(items, now);
    }

    /** Publishes to every channel of a source endpoint. Several channels take it together or not at all; a
        single channel is published to directly, so a refusal still consumes a sequence number there. */
    method PublishFrom(endpoint: Id, payload: Option<Payload>, now: int, stamp: Option<Stamp>) returns (accepted: bool)
      requires Valid()
      modifies this`channels, this`history
      ensures Valid()
      ensures payload.None? || endpoint !in sources ==> !accepted && channels == old(channels)
      ensures payload.Some? && endpoint in sources ==> FannedOut(old(channels), sources[endpoint], payload.value, stamp, now, accepted, channels)
    {
      hide AllSound, Traced, HandedRight, SameContents, Fits, Commit, Published;
      if payload.None? || endpoint !in sources {
        return false;
      }
      var ids := sources[endpoint];
      var items := FanOut(ids, payload.value, stamp);
      FitsNothing(channels);
      if |ids| > 1 {
        var planned: map<Id, nat>;
        var planItems: seq<Item>;
        assert [] + items == items;
        accepted, planItems, planned := Plan([], items, map[]);
        if accepted {
          accepted := CommitItems(items, now);
        }
      } else if ids == [] {
        assert items == [];
        accepted := CommitItems(items, now);
      } else {
        accepted := PublishOne(ids[0], payload.value, now, stamp);
        SingleFits(old(channels), ids, payload.value, stamp, now);
      }
    }

    /** The copy policy first, then the queue. */
    method PublishOne(id: Id, payload: Payload, now: int, stamp: Option<Stamp>) returns (accepted: bool)
      requires Valid() && id in channels
      modifies this`channels, this`history
      ensures Valid()
      ensures var s := old(channels)[id];
        && accepted == (s.config.Carries(payload) && !Full(s))
        && channels == if s.config.Carries(payload) then old(channels)[id := Published(s, payload, now, stamp)] else old(channels)
    {
      accepted := false;
      if channels[id].config.Carries(payload) {
        accepted := PublishToState(id, payload, now, stamp);
      }
    }

    /** Reads any channel for a reader; an unknown channel has nothing to read. */
    method DrainForReader(id: Id, reader: Id, now: int, max: nat) returns (messages: seq<Message>)
      requires Valid()
      modifies this`channels, this`history, this`handed
      ensures Valid()
      ensures id !in old(channels) ==> messages == [] && channels == old(channels) && history == old(history)
      ensures id in old(channels) ==> messages == R.Output(old(channels)[id], reader, now, max)
      ensures id in old(channels) ==> channels == old(channels)[id := ReadChannel(old(channels)[id], reader, now, max)]
      ensures id in old(channels) ==> history == Recorded(old(history), id, R.Read(reader, now, max))
      ensures SentMore(old(history), history, []) && handed == old(handed) + Q.Tagged(reader, messages)
    {
      hide AllSound, RoutesKnown, Traced, HandedRight, ReadQueue, ReadLatest, QueueRead, LatestRead, SentMore, Recorded, Q.Tagged;
      SentNothing(history);
      TaggedNothing(reader);
      if id !in channels {
        return [];
      }
      var s := channels[id];
      if s.config.LatestStyle() {
        s, messages := ConsumeLatestFromState(s, reader, now);
      } else {
        s, messages := ConsumeFromState(s, reader, now, max);
      }
      PutRead(id, s, reader, now, max, messages);
    }

    /** Shows what a channel holds and delivers nothing. */
    method PeekChannel(id: Id, now: int, max: nat) returns (messages: seq<Message>)
      requires Valid() && id in channels
      modifies this`channels, this`history
      ensures Valid() && messages == SnapshotView(old(channels)[id], now, max)
      ensures channels == old(channels)[id := Snapshot(old(channels)[id], now)]
      ensures history == Recorded(old(history), id, R.Look(now))
    {
      hide AllSound, RoutesKnown, Traced, HandedRight, Snapshot, SnapshotView;
      var s;
      s, messages := SnapshotFromState(channels[id], now, max);
      Put(id, s, R.Look(now));
    }

    /** Whatever was done to the bus, a reader whom the cap never hit has been given each message of a channel at
        most once, in increasing sequence. */
    lemma ReaderIsGivenEachOnce(id: Id, reader: Id)
      requires Valid() && id in channels && reader !in R.Evicted(channels[id].config, history[id])
      ensures Increasing(R.Received(channels[id].config, history[id], true, reader))
    {
      hide R.Evicted, R.Received, Increasing;
      R.EachReaderOnce(channels[id].config, history[id], reader);
    }

    /** The channels that feed a port of a component; every channel of the component if no port is named. */
    method ChannelIdsForComponentPort(component: Id, port: string) returns (ids: seq<Id>)
      requires Valid()
      ensures forall i :: 0 <= i < |ids| ==> ids[i] in channels
      ensures forall c :: c in ids <==> c in Route(components, component) && (port == "" || ports[c] == port)
      ensures ids == PortIds(Route(components, component), ports, port)
    {
      hide AllSound;
      ids := [];
      var all := Route(components, component);
      for i := 0 to |all|
        invariant forall j :: 0 <= j < |ids| ==> ids[j] in channels
        invariant forall c :: c in ids <==> c in all[..i] && (port == "" || ports[c] == port)
        invariant ids == PortIds(all[..i], ports, port)
      {
        assert all[..i + 1] == all[..i] + [all[i]];
        assert all[..i + 1][..i] == all[..i];
        if port == "" || ports[all[i]] == port {
          ids := ids + [all[i]];
        }
      }
      assert all[..|all|] == all;
    }

    /** Drains a port's channels in order until the batch is full. Everything taken off a channel is delivered. */
    method DrainForComponentPort(component: Id, port: string, now: int, max: nat)
      returns (messages: seq<Message>, ghost ids: seq<Id>)
      requires Valid()
      modifies this`channels, this`history, this`handed
      ensures Valid()
      ensures forall c :: c in ids <==> c in Route(components, component) && (port == "" || ports[c] == port)
      ensures ids == PortIds(Route(components, component), ports, port)
      ensures forall i :: 0 <= i < |ids| ==> ids[i] in old(channels)
      ensures (channels, messages) == Drained(old(channels), ids, component + "." + port, now, max)
      ensures max != 0 ==> |messages| <= max
      ensures SentMore(old(history), history, []) && handed == old(handed) + Q.Tagged(component + "." + port, messages)
    {
      hide AllSound, RoutesKnown, Traced, HandedRight, ReadQueue, ReadLatest, QueueRead, LatestRead, SentMore, Recorded, PortIds, Route,
        Q.Tagged;
      SentNothing(history);
      TaggedNothing(component + "." + port);
      var all := ChannelIdsForComponentPort(component, port);
      ids := all;
      messages := [];
      assert all[..0] == [];
      for i := 0 to |all|
        invariant Valid() && channels.Keys == old(channels).Keys
        invariant (channels, messages) == Drained(old(channels), all[..i], component + "." + port, now, max)
        invariant SentMore(old(history), history, []) && handed == old(handed) + Q.Tagged(component + "." + port, messages)
      {
        assert all[..i + 1][..i] == all[..i] && all[..i + 1][i] == all[i];
        if !(max != 0 && |messages| >= max) {
          ghost var h := history;
          var left := if max == 0 then 0 else max - |messages|;
          var drained := DrainForReader(all[i], component + "." + port, now, left);
          SentNoMore(old(history), h, history);
          TaggedConcat(component + "." + port, messages, drained);
          messages := messages + drained;
        }
      }
      assert all[..|all|] == all;
      DrainedBounded(old(channels), all, component + "." + port, now, max);
    }

    /** Ends the epoch for every previous-tick channel. */
    method AdvanceEpoch()
      requires Valid()
      modifies this`channels, this`history
      ensures Valid() && channels.Keys == old(channels).Keys
      ensures forall c :: c in channels ==> channels[c] == Advanced(old(channels)[c])
      ensures SentMore(old(history), history, [])
    {
      hide AllSound, RoutesKnown, Traced, HandedRight, SentMore, Recorded;
      SentNothing(history);
      var todo := channels.Keys;
      while todo != {}
        invariant Valid() && todo <= channels.Keys == old(channels).Keys && SentMore(old(history), history, [])
        invariant forall c :: c in channels ==> channels[c] == if c in todo then old(channels)[c] else Advanced(old(channels)[c])
      {
        var id :| id in todo;
        var s := channels[id];
        if s.config.kind == PreviousTick && s.pending.Some? {
          ghost var h := history;
          Put(id, s.(latest := s.pending, pending := None, depth := 1), R.Advance);
          SentNoMore(old(history), h, history);
        }
        todo := todo - {id};
      }
    }
  }

  /** Reads a queue: expired messages go, the reader's next messages are delivered, a single reader's are
      removed, and the cursor maps are pruned when they outgrow their bound. */
  method ConsumeFromState(state: Channel, reader: Id, now: int, max: nat) returns (s: Channel, messages: seq<Message>)
    ensures messages == QueueRead(state, reader, now, max) && s == ReadQueue(state, reader, now, max, true)
  {
    hide Pruned, QueueCursorsKept, Wanted, Retained, Live, Batch;
    s := state;
    if s.config.kind == Barrier && |s.queue| < s.config.capacity {
      return s, [];
    }
    var retained, stale;
    messages, retained, stale := SplitQueue(s.config, s.queue, Cursor(s.queueSeen, reader), now, max);
    var seen := if s.config.multiReader && messages != [] then s.queueSeen[reader := messages[|messages| - 1].sequence] else s.queueSeen;
    seen := PruneQueueReaders(seen, retained);
    s := s.(queue := retained, depth := |retained|, queueSeen := seen,
            counts := s.counts.(delivered := s.counts.delivered + |messages|, stale := s.counts.stale + stale,
                                dropped := s.counts.dropped + stale));
  }

  /** Reads a latest-style channel: an expired value goes, and a value the reader already has is withheld. */
  method ConsumeLatestFromState(state: Channel, reader: Id, now: int) returns (s: Channel, messages: seq<Message>)
    ensures messages == LatestRead(state, reader, now) && s == ReadLatest(state, reader, now, true)
  {
    hide Capped;
    s := state;
    if s.latest.None? {
      return s, [];
    }
    if s.config.Expired(s.latest.value, now) {
      return Forgotten(s), [];
    }
    var sequence := s.latest.value.sequence;
    if reader in s.latestSeen && s.latestSeen[reader] == sequence {
      return s, [];
    }
    var seen := s.latestSeen[reader := sequence];
    if |seen| > MAX_TRACKED_READERS {
      var kept := PruneLatestDedup(seen, sequence);
      seen := EnforceReaderCap(kept);
    }
    messages := [s.latest.value];
    s := s.(latestSeen := seen, counts := s.counts.(delivered := s.counts.delivered + 1));
  }

  /** Shows what a channel holds and delivers nothing: only expired messages go. */
  method SnapshotFromState(state: Channel, now: int, max: nat) returns (s: Channel, messages: seq<Message>)
    ensures messages == SnapshotView(state, now, max) && s == Snapshot(state, now)
  {
    hide Live;
    s := state;
    if s.config.LatestStyle() {
      if s.latest.Some? && s.config.Expired(s.latest.value, now) {
        return Forgotten(s), [];
      }
      return s, if s.latest.Some? then [s.latest.value] else [];
    }
    var retained, stale;
    messages, retained, stale := ViewQueue(s.config, s.queue, now, max);
    s := s.(queue := retained, depth := |retained|,
            counts := s.counts.(stale := s.counts.stale + stale, dropped := s.counts.dropped + stale));
  }

  ghost function ReadChannel(s: Channel, reader: Id, now: int, max: nat): Channel {
    if s.config.LatestStyle() then ReadLatest(s, reader, now, true) else ReadQueue(s, reader, now, max, true)
  }

  /** One pass over a queue. */
  method SplitQueue(c: Config, q: seq<Message>, cursor: nat, now: int, max: nat)
    returns (messages: seq<Message>, retained: seq<Message>, stale: nat)
    ensures messages == Batch(Wanted(c, q, cursor, now), max) && retained == Retained(c, q, cursor, now, max)
    ensures stale + |Live(c, q, now)| == |q|
  {
    messages, retained, stale := [], [], 0;
    SplitNone(c, cursor, now, max);
    assert q[..0] == [];
    hide Live, Wanted, Retained, Batch;
    for i := 0 to |q|
      invariant messages == Batch(Wanted(c, q[..i], cursor, now), max)
      invariant retained == Retained(c, q[..i], cursor, now, max)
      invariant stale + |Live(c, q[..i], now)| == i
    {
      var m := q[i];
      assert q[..i + 1] == q[..i] + [m];
      SplitOne(c, q[..i], m, cursor, now, max);
      if c.Expired(m, now) {
        stale := stale + 1;
      } else if (c.multiReader && m.sequence <= cursor) || (max != 0 && |messages| >= max) {
        retained := retained + [m];
      } else {
        if c.multiReader {
          retained := retained + [m];
        }
        messages := messages + [m];
      }
    }
    assert q[..|q|] == q;
  }

  lemma SplitNone(c: Config, cursor: nat, now: int, max: nat)
    ensures Batch(Wanted(c, [], cursor, now), max) == [] == Retained(c, [], cursor, now, max) && Live(c, [], now) == []
  {
  }

  /** What the pass does with one more message. */
  lemma SplitOne(c: Config, q: seq<Message>, m: Message, cursor: nat, now: int, max: nat)
    ensures var out, out' := Batch(Wanted(c, q, cursor, now), max), Batch(Wanted(c, q + [m], cursor, now), max);
      var kept, kept' := Retained(c, q, cursor, now, max), Retained(c, q + [m], cursor, now, max);
      if c.Expired(m, now) then out' == out && kept' == kept
      else if (c.multiReader && m.sequence <= cursor) || (max != 0 && |out| >= max) then out' == out && kept' == kept + [m]
      else out' == out + [m] && kept' == if c.multiReader then kept + [m] else kept
    ensures |Live(c, q + [m], now)| == |Live(c, q, now)| + if c.Expired(m, now) then 0 else 1
  {
    var wanted := Wanted(c, q, cursor, now);
    WantedOne(c, q, m, cursor, now);
    hide Live, Beyond, Wanted;
    BatchOne(wanted, m, max);
  }

  lemma WantedOne(c: Config, q: seq<Message>, m: Message, cursor: nat, now: int)
    ensures Live(c, q + [m], now) == Live(c, q, now) + if c.Expired(m, now) then [] else [m]
    ensures Wanted(c, q + [m], cursor, now) == Wanted(c, q, cursor, now) +
      if c.Expired(m, now) || (c.multiReader && m.sequence <= cursor) then [] else [m]
  {
    assert (q + [m])[..|q|] == q && (q + [m])[|q|] == m;
    var live := Live(c, q, now);
    assert (live + [m])[..|live|] == live && (live + [m])[|live|] == m;
  }

  lemma BatchOne(wanted: seq<Message>, m: Message, max: nat)
    ensures var out, out' := Batch(wanted, max), Batch(wanted + [m], max);
      if max != 0 && |out| >= max then out' == out && (wanted + [m])[|out'|..] == wanted[|out|..] + [m]
      else out' == out + [m] && (wanted + [m])[|out'|..] == wanted[|out|..]
  {
  }

  method ViewQueue(c: Config, q: seq<Message>, now: int, max: nat)
    returns (messages: seq<Message>, retained: seq<Message>, stale: nat)
    ensures messages == Batch(Live(c, q, now), max) && retained == Live(c, q, now)
    ensures stale + |Live(c, q, now)| == |q|
  {
    messages, retained, stale := [], [], 0;
    for i := 0 to |q|
      invariant retained == Live(c, q[..i], now) && messages == Batch(retained, max)
      invariant stale + |retained| == i
    {
      var m := q[i];
      assert q[..i + 1][..i] == q[..i] && q[..i + 1][i] == m;
      if c.Expired(m, now) {
        stale := stale + 1;
      } else {
        if max == 0 || |messages| < max {
          messages := messages + [m];
        }
        retained := retained + [m];
      }
    }
    assert q[..|q|] == q;
  }

  method PruneQueueDedup(seen: map<Id, nat>, q: seq<Message>) returns (kept: map<Id, nat>)
    ensures kept == QueueCursorsKept(seen, q)
  {
    kept := seen;
    var todo := seen.Keys;
    while todo != {}
      invariant todo <= seen.Keys && kept == map r | r in seen && (r in todo || (q != [] && seen[r] >= q[0].sequence)) :: seen[r]
    {
      var r :| r in todo;
      if q == [] || seen[r] < q[0].sequence {
        kept := kept - {r};
      }
      todo := todo - {r};
    }
  }

  method PruneQueueReaders(seen: map<Id, nat>, q: seq<Message>) returns (r: map<Id, nat>)
    ensures r == Pruned(seen, QueueCursorsKept(seen, q))
  {
    hide Capped, QueueCursorsKept;
    r := seen;
    if |seen| > MAX_TRACKED_READERS {
      var kept := PruneQueueDedup(seen, q);
      r := EnforceReaderCap(kept);
    }
  }

  method PruneLatestDedup(seen: map<Id, nat>, latest: nat) returns (kept: map<Id, nat>)
    ensures kept == LatestCursorsKept(seen, latest)
  {
    kept := seen;
    var todo := seen.Keys;
    while todo != {}
      invariant todo <= seen.Keys && kept == map r | r in seen && (r in todo || seen[r] == latest) :: seen[r]
    {
      var r :| r in todo;
      if seen[r] != latest {
        kept := kept - {r};
      }
      todo := todo - {r};
    }
  }

  /** Evicts readers by name, smallest first, until the cap holds. */
  method EnforceReaderCap(seen: map<Id, nat>) returns (capped: map<Id, nat>)
    ensures capped == Capped(seen)
  {
    capped := seen;
    while |capped| > MAX_TRACKED_READERS
      invariant Capped(capped) == Capped(seen)
      decreases |capped|
    {
      SmallestExists(capped.Keys);
      var k :| k in capped.Keys && IsSmallest(capped.Keys, k);
      CappedStep(capped, k);
      assert (capped - {k}).Keys == capped.Keys - {k};
      assert |capped - {k}| == |(capped - {k}).Keys|;
      capped := capped - {k};
    }
  }

  lemma CappedStep(seen: map<Id, nat>, k: Id)
    requires |seen| > MAX_TRACKED_READERS && IsSmallest(seen.Keys, k)
    ensures Capped(seen) == Capped(seen - {k})
  {
    forall j | IsSmallest(seen.Keys, j) ensures j == k {
      SmallestUnique(seen.Keys, j, k);
    }
  }

  lemma TaggedNothing(reader: Id)
    ensures Q.Tagged(reader, []) == []
    ensures forall log: Q.Log :: log + [] == log
  {
  }

  lemma TaggedConcat(reader: Id, a: seq<Message>, b: seq<Message>)
    ensures Q.Tagged(reader, a + b) == Q.Tagged(reader, a) + Q.Tagged(reader, b)
    ensures forall log: Q.Log :: log + (Q.Tagged(reader, a) + Q.Tagged(reader, b)) == (log + Q.Tagged(reader, a)) + Q.Tagged(reader, b)
  {
  }

  lemma IdMatches(channels: ChannelMap, id: Id)
    requires AllSound(channels) && id in channels
    ensures channels[id].config.id == id
  {
  }

  lemma HistoryKept(channels: ChannelMap, history: Histories, id: Id)
    requires Traced(channels, history) && id in channels
    ensures id in history
  {
  }

  /** What publishing from an endpoint does, by the number of its channels. */
  ghost predicate FannedOut(before: ChannelMap, ids: seq<Id>, payload: Payload, stamp: Option<Stamp>, now: int, accepted: bool,
                            after: ChannelMap)
  {
    var items := FanOut(ids, payload, stamp);
    && Targets(before, items) && (accepted <==> Fits(before, items))
    && (accepted ==> after == Commit(before, items, now))
    && (!accepted && |ids| > 1 ==> AllSameContents(before, after))
    && (!accepted && |ids| == 1 ==> after == if before[ids[0]].config.Carries(payload) then before[ids[0] := Rejected(before[ids[0]])] else before)
  }

  /** A refused publish from an endpoint leaves the channels as they were, but for tallies, exactly when the endpoint
      feeds several channels or its single one may not carry the payload. */
  lemma RefusalLeaves(before: ChannelMap, ids: seq<Id>, payload: Payload, stamp: Option<Stamp>, now: int, after: ChannelMap)
    requires FannedOut(before, ids, payload, stamp, now, false, after)
    ensures ids != [] && ids[0] in before
    ensures AllSameContents(before, after) <==> |ids| > 1 || !before[ids[0]].config.Carries(payload)
  {
    var items := FanOut(ids, payload, stamp);
    assert ids != [] && items[0].channel == ids[0];
    SameContentsRefl(before);
    if |ids| == 1 && before[ids[0]].config.Carries(payload) {
      assert after[ids[0]].next == before[ids[0]].next + 1;
    }
  }

  ghost predicate BatchFits(channels: ChannelMap, sources: Routes, publications: seq<Publication>)
    requires RoutesKnown(channels, sources)
  {
    var items := Expanded(channels, sources, publications);
    items.Some? && Fits(channels, items.value)
  }

  ghost predicate Plans(planned: map<Id, nat>, items: seq<Item>) {
    forall c :: Count(items, c) == if c in planned then planned[c] else 0
  }

  lemma PlansOneMore(planned: map<Id, nat>, items: seq<Item>, x: Item)
    requires Plans(planned, items)
    ensures var already := if x.channel in planned then planned[x.channel] else 0;
      already == Count(items, x.channel) && Plans(planned[x.channel := already + 1], items + [x])
  {
    assert (items + [x])[..|items|] == items;
  }

  lemma SameContentsRefl(channels: ChannelMap)
    ensures AllSameContents(channels, channels)
  {
  }

  lemma FitsNothing(channels: ChannelMap)
    ensures Targets(channels, []) && Fits(channels, [])
  {
  }

  lemma NoFitPrefix(channels: ChannelMap, a: seq<Item>, b: seq<Item>)
    requires Targets(channels, a + b) && Targets(channels, a)
    ensures Fits(channels, a + b) ==> Fits(channels, a)
  {
    if Fits(channels, a + b) {
      FitsPrefix(channels, a, b);
    }
  }

  lemma NoExpansion(channels: ChannelMap, sources: Routes, publications: seq<Publication>, k: nat)
    requires RoutesKnown(channels, sources) && k <= |publications|
    ensures Expanded(channels, sources, publications).Some? ==> Expanded(channels, sources, publications[..k]).Some?
  {
    if Expanded(channels, sources, publications).Some? {
      ExpandedPrefix(channels, sources, publications, k);
    }
  }

  lemma NoFit(channels: ChannelMap, sources: Routes, publications: seq<Publication>, k: nat)
    requires RoutesKnown(channels, sources) && k <= |publications|
    ensures BatchFits(channels, sources, publications) ==> BatchFits(channels, sources, publications[..k])
  {
    if BatchFits(channels, sources, publications) {
      ExpandedPrefix(channels, sources, publications, k);
      var a := Expanded(channels, sources, publications[..k]).value;
      var all := Expanded(channels, sources, publications).value;
      assert all == a + all[|a|..];
      FitsPrefix(channels, a, all[|a|..]);
    }
  }

  /** While a fitting batch is committed, the next channel is never full. */
  lemma NeverFull(channels: ChannelMap, items: seq<Item>, k: nat, now: int)
    requires AllSound(channels) && Targets(channels, items) && Fits(channels, items) && k < |items|
    ensures Targets(channels, items[..k]) && !Full(Commit(channels, items[..k], now)[items[k].channel])
  {
    hide Sound, CursorsBounded, Published, Commit, Gained;
    var c := items[k].channel;
    assert items == items[..k] + ([items[k]] + items[k + 1..]);
    CountConcat(items[..k], [items[k]] + items[k + 1..], c);
    CountConcat([items[k]], items[k + 1..], c);
    assert [items[k]][..0] == [];
    CommitGains(channels, items[..k], now, c);
  }

  lemma SingleFits(channels: ChannelMap, ids: seq<Id>, payload: Payload, stamp: Option<Stamp>, now: int)
    requires AllSound(channels) && |ids| == 1 && ids[0] in channels
    ensures var items := FanOut(ids, payload, stamp);
      && Targets(channels, items)
      && (Fits(channels, items) <==> channels[ids[0]].config.Carries(payload) && !Full(channels[ids[0]]))
      && Commit(channels, items, now) == channels[ids[0] := Published(channels[ids[0]], payload, now, stamp)]
    ensures Full(channels[ids[0]]) ==> Published(channels[ids[0]], payload, now, stamp) == Rejected(channels[ids[0]])
  {
    hide CursorsBounded, SlotsSound, LedgerSound, CursorsSound;
    var items := FanOut(ids, payload, stamp);
    assert items == [] + [items[0]];
    FitsNothing(channels);
    FitsOneMore(channels, [], items[0]);
  }
}
