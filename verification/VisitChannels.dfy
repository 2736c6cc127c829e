/** What visits do to the channels: which messages are taken off them by whom, and when what was published gets
    there. */
module VisitChannels {
  import opened Ids
  import opened Messages
  import opened TriggerQueues
  import opened ChannelBatch
  import opened ChannelBus
  import opened Staging
  import opened PublicationRouter
  import opened RunEffects
  import opened RunHistory
  import T = TriggerEngine

  lemma KnownPorts(channels: ChannelMap, routes: Routes, component: Id, ids: seq<Id>)
    requires RoutesKnown(channels, routes) && forall c :: c in ids ==> c in Route(routes, component)
    ensures forall i :: 0 <= i < |ids| ==> ids[i] in channels
  {
    forall i | 0 <= i < |ids| ensures ids[i] in channels {
      assert ids[i] in ids;
    }
  }

  /** Draining the inputs of a component in turn. */
  ghost function InputsDrained(channels: ChannelMap, routes: Routes, ports: map<Id, string>, component: Id, inputs: seq<Id>,
                               now: int): (r: (ChannelMap, Queues))
    requires RoutesKnown(channels, routes)
    ensures r.0.Keys == channels.Keys
  {
    if inputs == [] then (channels, map[])
    else
      var (before, taken) := InputsDrained(channels, routes, ports, component, inputs[..|inputs| - 1], now);
      var input := inputs[|inputs| - 1];
      var ids := PortIds(Route(routes, component), ports, input);
      KnownPorts(before, routes, component, ids);
      var (after, messages) := Drained(before, ids, component + "." + input, now, 0);
      (after, taken[input := messages])
  }

  /** Draining ports of a component in turn, as an execution does by itself. */
  ghost function PortsDrained(channels: ChannelMap, routes: Routes, ports: map<Id, string>, component: Id, drains: seq<Drain>,
                              now: int): (r: ChannelMap)
    requires RoutesKnown(channels, routes)
    ensures r.Keys == channels.Keys
  {
    if drains == [] then channels
    else
      var before := PortsDrained(channels, routes, ports, component, drains[..|drains| - 1], now);
      var d := drains[|drains| - 1];
      var ids := PortIds(Route(routes, component), ports, d.port);
      KnownPorts(before, routes, component, ids);
      Drained(before, ids, component + "." + d.port, now, d.max).0
  }

  // ----- the commit points of a visit

  /** Where a visit happens: the routes of the bus, the router's table and active region, and the time. */
  datatype Place = Place(routes: Routes, ports: map<Id, string>, start: Start, table: RoutingTable, active: set<Id>, now: int)

  /** One execution: it drains what it drains, and then what it published inside the active region is committed as one
      batch. */
  ghost predicate OneInvoked(w: Place, a: ChannelMap, s: seq<Routed>, b: ChannelMap, s': seq<Routed>, d: Done) {
    && w.start.count <= |s| && s <= s' && RoutesKnown(a, w.routes)
    && StagedFor(w.start, s, s', w.table, Sourced(d.component, d.execution.outputs))
    && BusCommitted(PortsDrained(a, w.routes, w.ports, d.component, d.execution.drains, w.now), b, Inside(s'[|s|..], w.active), true, w.now)
  }

  /** Executions one by one: each commits before the next one starts. */
  ghost predicate InvokedInTurn(w: Place, a: ChannelMap, s: seq<Routed>, b: ChannelMap, s': seq<Routed>, done: seq<Done>)
    decreases |done|
  {
    if done == [] then b == a && s' == s
    else exists mid: ChannelMap, t: seq<Routed> ::
      OneInvoked(w, mid, t, b, s', LastDone(done)) && InvokedInTurn(w, a, s, mid, t, done[..|done| - 1])
  }

  function LastDone(done: seq<Done>): Done
    requires done != []
  {
    done[|done| - 1]
  }

  ghost function DrainedInTurn(w: Place, a: ChannelMap, done: seq<Done>): (r: ChannelMap)
    requires RoutesKnown(a, w.routes)
    ensures r.Keys == a.Keys
  {
    if done == [] then a
    else
      var d := done[|done| - 1];
      PortsDrained(DrainedInTurn(w, a, done[..|done| - 1]), w.routes, w.ports, d.component, d.execution.drains, w.now)
  }

  /** Executions side by side: all drain what they drain, and then what they published is committed as one batch. */
  ghost predicate InvokedTogether(w: Place, a: ChannelMap, s: seq<Routed>, b: ChannelMap, s': seq<Routed>, done: seq<Done>) {
    && s <= s' && RoutesKnown(a, w.routes)
    && if done == [] then b == a && s' == s
       else BusCommitted(DrainedInTurn(w, a, done), b, Inside(s'[|s|..], w.active), true, w.now)
  }

  ghost predicate Invoked(w: Place, each: bool, a: ChannelMap, s: seq<Routed>, b: ChannelMap, s': seq<Routed>, done: seq<Done>) {
    if each then InvokedInTurn(w, a, s, b, s', done) else InvokedTogether(w, a, s, b, s', done)
  }

  lemma OneDone(w: Place, left: Trail, left': Trail, st: Stages, l: Ledger, mid: Stages, l': Ledger, a: ChannelMap, drained: ChannelMap,
                b: ChannelMap, d: Done)
    requires Acted(w.start, w.table, left, left', [d]) && left.staged == l.staged && left'.staged == l'.staged
    requires Joined(st, l, mid, l', w.active) && st.immediate == [] && RoutesKnown(a, w.routes)
    requires drained == PortsDrained(a, w.routes, w.ports, d.component, d.execution.drains, w.now)
    requires BusCommitted(drained, b, mid.immediate, true, w.now)
    ensures OneInvoked(w, a, l.staged, b, l'.staged, d)
  {
    hide PortsDrained, StagedFor, BusCommitted, Inside, Sourced, OutputsOf, WritesOf, UpdatesOf, PendingAfter;
    EffectsOne(d);
    assert [] + Inside(l'.staged[|l.staged|..], w.active) == Inside(l'.staged[|l.staged|..], w.active);
  }

  lemma TogetherDone(w: Place, st: Stages, l: Ledger, mid: Stages, l': Ledger, a: ChannelMap, drained: ChannelMap, b: ChannelMap,
                     done: seq<Done>)
    requires Joined(st, l, mid, l', w.active) && st.immediate == [] && RoutesKnown(a, w.routes) && done != []
    requires drained == DrainedInTurn(w, a, done) && BusCommitted(drained, b, mid.immediate, true, w.now)
    ensures InvokedTogether(w, a, l.staged, b, l'.staged, done)
  {
    hide DrainedInTurn, BusCommitted, Inside;
    assert [] + Inside(l'.staged[|l.staged|..], w.active) == Inside(l'.staged[|l.staged|..], w.active);
  }

  lemma InTurnMore(w: Place, a: ChannelMap, s: seq<Routed>, mid: ChannelMap, t: seq<Routed>, b: ChannelMap, s': seq<Routed>,
                   done: seq<Done>, d: Done)
    requires InvokedInTurn(w, a, s, mid, t, done) && OneInvoked(w, mid, t, b, s', d)
    ensures InvokedInTurn(w, a, s, b, s', done + [d])
  {
    hide OneInvoked;
    assert (done + [d])[..|done|] == done;
    assert OneInvoked(w, mid, t, b, s', LastDone(done + [d]));
  }

  /** So far these executions drained what they drain by themselves, and nothing else happened. */
  ghost predicate DrainedSoFar(w: Place, a: ChannelMap, b: ChannelMap, done: seq<Done>) {
    RoutesKnown(a, w.routes) && b == DrainedInTurn(w, a, done)
  }

  lemma DrainedMore(w: Place, a: ChannelMap, done: seq<Done>, d: Done)
    requires RoutesKnown(a, w.routes)
    ensures RoutesKnown(DrainedInTurn(w, a, done), w.routes)
    ensures DrainedInTurn(w, a, done + [d]) ==
      PortsDrained(DrainedInTurn(w, a, done), w.routes, w.ports, d.component, d.execution.drains, w.now)
  {
    hide PortsDrained;
    assert (done + [d])[..|done|] == done;
  }

  // ----- what was committed of what was staged

  /** What was committed since, and what waits in the immediate store, are the inner immediate publications staged
      since, in order. */
  ghost predicate SettledInside(a: Ledger, b: Ledger, immediate: seq<Routed>, active: set<Id>) {
    a.staged <= b.staged && b.committed + immediate == a.committed + Inside(b.staged[|a.staged|..], active)
  }

  lemma SettledFirst(a: Ledger, active: set<Id>)
    ensures SettledInside(a, a, [], active)
  {
    assert a.staged[|a.staged|..] == [];
    assert a.committed + [] == a.committed;
  }

  lemma SettledJoined(a: Ledger, st: Stages, b: Ledger, st': Stages, c: Ledger, active: set<Id>)
    requires SettledInside(a, b, st.immediate, active) && Joined(st, b, st', c, active) && c.committed == b.committed
    ensures SettledInside(a, c, st'.immediate, active)
  {
    hide Inside;
    var first, more := b.staged[|a.staged|..], c.staged[|b.staged|..];
    assert c.staged[|a.staged|..] == first + more;
    InsideConcat(first, more, active);
    assert c.committed + (st.immediate + Inside(more, active)) == (b.committed + st.immediate) + Inside(more, active);
  }

  lemma SettledCommitted(a: Ledger, b: Ledger, immediate: seq<Routed>, c: Ledger, active: set<Id>)
    requires SettledInside(a, b, immediate, active) && c.staged == b.staged && c.committed == b.committed + immediate
    ensures SettledInside(a, c, [], active)
  {
    assert c.committed + [] == c.committed;
  }

  lemma SettledChain(a: Ledger, b: Ledger, c: Ledger, active: set<Id>)
    requires SettledInside(a, b, [], active) && SettledInside(b, c, [], active)
    ensures SettledInside(a, c, [], active)
  {
    hide Inside;
    var first, more := b.staged[|a.staged|..], c.staged[|b.staged|..];
    assert c.staged[|a.staged|..] == first + more;
    InsideConcat(first, more, active);
    assert b.committed + [] == b.committed && c.committed + [] == c.committed;
  }

  // ----- what was taken off the channels, and by whom

  ghost predicate AllIn(ports: seq<Id>, q: Queues) {
    forall p :: p in ports ==> p in q
  }

  /** What the inputs of a component were handed, each tagged with its reader. */
  function InputsLog(component: Id, inputs: seq<Id>, arrivals: Queues): Log
    requires AllIn(inputs, arrivals)
  {
    if inputs == [] then []
    else
      var input := inputs[|inputs| - 1];
      InputsLog(component, inputs[..|inputs| - 1], arrivals) + Tagged(component + "." + input, arrivals[input])
  }

  lemma {:induction false} InputsLogSame(component: Id, inputs: seq<Id>, a: Queues, b: Queues)
    requires AllIn(inputs, a) && AllIn(inputs, b) && forall p :: p in inputs ==> a[p] == b[p]
    ensures InputsLog(component, inputs, a) == InputsLog(component, inputs, b)
  {
    if inputs != [] {
      InputsLogSame(component, inputs[..|inputs| - 1], a, b);
    }
  }

  lemma InputsLogOne(component: Id, inputs: seq<Id>, k: nat, before: Queues, messages: seq<Message>)
    requires k < |inputs| && Distinct(inputs) && AllIn(inputs[..k], before)
    ensures AllIn(inputs[..k + 1], before[inputs[k] := messages])
    ensures InputsLog(component, inputs[..k + 1], before[inputs[k] := messages]) ==
      InputsLog(component, inputs[..k], before) + Tagged(component + "." + inputs[k], messages)
  {
    hide Tagged;
    assert inputs[..k + 1][..k] == inputs[..k];
    InputsLogSame(component, inputs[..k], before, before[inputs[k] := messages]);
  }

  /** A port name without dots can be told from the component's name in front of it. */
  ghost predicate Plain(port: Id) {
    '.' !in port
  }

  lemma ReadersDiffer(a: Id, p: Id, b: Id, q: Id)
    requires Plain(p) && Plain(q) && a + "." + p == b + "." + q
    ensures a == b && p == q
  {
    if |p| < |q| {
      TailsAlign(a, p, b, q);
    } else if |q| < |p| {
      TailsAlign(b, q, a, p);
    } else {
      assert p == (a + "." + p)[|a| + 1..] && q == (b + "." + q)[|b| + 1..];
      assert a == (a + "." + p)[..|a|] && b == (b + "." + q)[..|b|];
    }
  }

  /** If one port name were longer, it would contain the dot in front of the other. */
  lemma TailsAlign(a: Id, p: Id, b: Id, q: Id)
    requires |p| < |q| && a + "." + p == b + "." + q
    ensures '.' in q
  {
    var s := a + "." + p;
    assert s[|a|] == '.' && |a| >= |b| + 1;
    assert (b + "." + q)[|a|] == q[|a| - |b| - 1];
  }

  /** No input of the component reads under the name that the port reads under, unless it is that port. */
  ghost predicate Unshared(component: Id, inputs: seq<Id>, id: Id, port: Id) {
    forall q :: q in inputs && component + "." + q == id + "." + port ==> component == id && q == port
  }

  lemma PlainUnshared(component: Id, inputs: seq<Id>, id: Id, port: Id)
    requires Plain(port) && forall q :: q in inputs ==> Plain(q)
    ensures Unshared(component, inputs, id, port)
  {
    forall q | q in inputs && component + "." + q == id + "." + port ensures component == id && q == port {
      ReadersDiffer(component, q, id, port);
    }
  }

  lemma {:induction false} InputsLogOn(component: Id, inputs: seq<Id>, arrivals: Queues, id: Id, port: Id)
    requires Distinct(inputs) && AllIn(inputs, arrivals) && Unshared(component, inputs, id, port)
    ensures OnPort(InputsLog(component, inputs, arrivals), id + "." + port) ==
      if id == component && port in inputs then arrivals[port] else []
  {
    hide Tagged, OnPort;
    if inputs == [] {
      NoneOn(id + "." + port);
    } else {
      var front, input := inputs[..|inputs| - 1], inputs[|inputs| - 1];
      assert inputs == front + [input] && input !in front;
      InputsLogOn(component, front, arrivals, id, port);
      OnPortConcat(InputsLog(component, front, arrivals), Tagged(component + "." + input, arrivals[input]), id + "." + port);
      OnPortTagged(component + "." + input, arrivals[input], id + "." + port);
    }
  }

  lemma NoneOn(reader: Id)
    ensures OnPort([], reader) == []
  {
  }

  /** Of what the bus handed to a reader, the trigger entries took one part and executions, by themselves, the rest;
      all of it, in order, if no execution took anything. */
  ghost predicate Shared(handed: Log, own: Log, drained: seq<Message>, reader: Id) {
    && multiset(OnPort(handed, reader)) == multiset(drained) + multiset(OnPort(own, reader))
    && (OnPort(own, reader) == [] ==> OnPort(handed, reader) == drained)
  }

  /** Both logs have grown by the same entries. */
  ghost predicate SameGrowth(a: Log, a': Log, b: Log, b': Log) {
    exists more: Log :: a' == a + more && b' == b + more
  }

  /** An execution drains by itself. */
  lemma SharedOwn(handed: Log, own: Log, drained: seq<Message>, more: Log, reader: Id)
    requires Shared(handed, own, drained, reader)
    ensures Shared(handed + more, own + more, drained, reader)
  {
    hide OnPort;
    OnPortConcat(handed, more, reader);
    OnPortConcat(own, more, reader);
  }

  /** The trigger entries drain. */
  lemma SharedDrained(handed: Log, own: Log, drained: seq<Message>, more: Log, arrived: seq<Message>, reader: Id)
    requires Shared(handed, own, drained, reader) && OnPort(more, reader) == arrived
    ensures Shared(handed + more, own, drained + arrived, reader)
  {
    hide OnPort;
    OnPortConcat(handed, more, reader);
  }

  /** What a visit's draining means for the entries of one input of one component. */
  lemma SharedStep(handed: Log, own: Log, before: Queues, after: Queues, component: Id, inputs: seq<Id>, arrivals: Queues, id: Id, port: Id)
    requires port in before && Shared(handed, own, before[port], id + "." + port)
    requires Distinct(inputs) && AllIn(inputs, arrivals) && Unshared(component, inputs, id, port)
    requires after == if id == component then T.Received(before, arrivals) else before
    requires id == component ==> port in inputs
    ensures port in after && Shared(handed + InputsLog(component, inputs, arrivals), own, after[port], id + "." + port)
  {
    hide Shared, InputsLog, Unshared;
    InputsLogOn(component, inputs, arrivals, id, port);
    var arrived := if id == component && port in inputs then arrivals[port] else [];
    assert before[port] + [] == before[port];
    SharedDrained(handed, own, before[port], InputsLog(component, inputs, arrivals), arrived, id + "." + port);
  }

  lemma SinceThen(before: Log, handed: Log, more: Log)
    requires before <= handed
    ensures before <= handed + more && (handed + more)[|before|..] == handed[|before|..] + more
  {
  }

  lemma {:induction false} FromChannelCount(s: seq<Message>, c: Id, m: Message)
    ensures multiset(FromChannel(s, c))[m] == if m.channel == c then multiset(s)[m] else 0
  {
    if s != [] {
      FromChannelCount(s[..|s| - 1], c, m);
      assert s == s[..|s| - 1] + [s[|s| - 1]];
    }
  }

  /** What a reader received from one channel since then. */
  ghost predicate ReceivedShare(received: seq<Message>, earlier: seq<Message>, drained: seq<Message>, own: seq<Message>, c: Id) {
    && earlier <= received
    && multiset(received[|earlier|..]) == multiset(FromChannel(drained, c)) + multiset(FromChannel(own, c))
    && (own == [] ==> received[|earlier|..] == FromChannel(drained, c))
  }

  lemma SharedByChannel(before: Log, handed: Log, own: Log, drained: seq<Message>, reader: Id, c: Id)
    requires before <= handed && Shared(handed[|before|..], own, drained, reader)
    ensures ReceivedShare(FromChannel(OnPort(handed, reader), c), FromChannel(OnPort(before, reader), c), drained, OnPort(own, reader), c)
  {
    hide OnPort, FromChannel;
    var since := handed[|before|..];
    assert handed == before + since;
    OnPortConcat(before, since, reader);
    FromChannelConcat(OnPort(before, reader), OnPort(since, reader), c);
    forall m ensures multiset(FromChannel(OnPort(since, reader), c))[m] ==
      multiset(FromChannel(drained, c))[m] + multiset(FromChannel(OnPort(own, reader), c))[m]
    {
      FromChannelCount(OnPort(since, reader), c, m);
      FromChannelCount(drained, c, m);
      FromChannelCount(OnPort(own, reader), c, m);
      assert multiset(OnPort(since, reader))[m] == multiset(drained)[m] + multiset(OnPort(own, reader))[m];
    }
  }
}
