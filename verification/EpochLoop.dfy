/** The epoch loop: iterations over the region plan, and the commits between them. */
module EpochLoop {
  import opened Ids
  import opened Messages
  import opened GraphSpecs
  import opened Staging
  import opened RunHistory
  import opened PublicationRouter
  import opened ChannelBatch
  import opened ChannelBus
  import opened LoopPolicies
  import opened RunEffects
  import opened TriggerQueues
  import opened VisitChannels
  import C = ConfigTransactions
  import S = StateStores
  import T = TriggerEngine
  import R = ReaderCursors

  datatype RegionEnd = Finished | Cancelled | Failed

  datatype StopReason = TickBound | StopRequested | Idle | RunError

  /** The router as a run sees it: its ledger, what the channels were sent, and the active region. */
  datatype Moment = Moment(ledger: Ledger, sent: Histories, active: set<Id>, opening: Option<Opening>)

  /** Inside a region: no output of the region has got through, and what was committed was sent to the channels. */
  ghost predicate Moves(a: Moment, b: Moment) {
    && b.active == a.active && b.opening == a.opening
    && Progress(a.ledger, b.ledger, a.active) && Carried(a.sent, b.sent, a.ledger, b.ledger)
  }

  ghost predicate Ages(a: Moment, b: Moment) {
    Advances(a.ledger, b.ledger) && Carried(a.sent, b.sent, a.ledger, b.ledger)
  }

  lemma MovesNot(a: Moment)
    ensures Moves(a, a)
  {
    hide Progress, Carried;
    ProgressNone(a.ledger, a.active);
    CarriedNothing(a.sent, a.ledger, a.ledger);
  }

  lemma MovesTransitive(a: Moment, b: Moment, c: Moment)
    requires Moves(a, b) && Moves(b, c)
    ensures Moves(a, c)
  {
    hide Progress, Carried;
    ProgressTransitive(a.ledger, b.ledger, c.ledger, a.active);
    CarriedChain(a.sent, b.sent, c.sent, a.ledger, b.ledger, c.ledger);
  }

  lemma MovesActive(a: Moment, b: Moment)
    requires Moves(a, b)
    ensures b.active == a.active
  {
  }

  lemma MovesLost(a: Moment, b: Moment)
    requires Moves(a, b)
    ensures a.ledger.lost <= b.ledger.lost
  {
  }

  /** Taking a signal is no visit. */
  lemma SignalTaken(world: World, start: Start, table: RoutingTable, a: Trail, b: Trail, components: seq<Id>)
    requires Performed(world, start, table, a, b) && VisitedFrom(a, b, components)
    ensures Performed(world, start, table, a, b.(signals := b.signals + 1)) && VisitedFrom(a, b.(signals := b.signals + 1), components)
  {
  }

  lemma MovesAges(a: Moment, b: Moment)
    requires Moves(a, b)
    ensures Ages(a, b)
  {
    hide Advances, Carried, HeldBack;
  }

  lemma AgesTransitive(a: Moment, b: Moment, c: Moment)
    requires Ages(a, b) && Ages(b, c)
    ensures Ages(a, c)
  {
    hide Advances, Carried;
    AdvancesTransitive(a.ledger, b.ledger, c.ledger);
    CarriedChain(a.sent, b.sent, c.sent, a.ledger, b.ledger, c.ledger);
  }

  /** On the bus only reads happened. */
  lemma MovesReading(a: Moment, b: Moment)
    requires b == a.(sent := b.sent) && SentMore(a.sent, b.sent, [])
    ensures Moves(a, b)
  {
    hide SentMore, SentFor;
    ProgressNone(a.ledger, a.active);
    SentNone(a.sent, b.sent);
    assert b.ledger.committed[|a.ledger.committed|..] == [];
  }

  /** What becomes of a composite region's outputs: before its end, none was committed, but exactly the immediate
      publications that stay inside were; at its end, either all outputs were let through, the immediate ones in one batch, or all were discarded. */
  ghost predicate OutputsTogether(before: Ledger, after: Ledger, active: set<Id>, letThrough: bool) {
    exists middle: Ledger, outputs: seq<Routed>, accepted: bool ::
      && Progress(before, middle, active) && SettledInside(before, middle, [], active)
      && OutputsEnd(middle, after, active, outputs, letThrough, accepted)
  }

  ghost predicate OutputsEnd(middle: Ledger, after: Ledger, active: set<Id>, outputs: seq<Routed>, letThrough: bool, accepted: bool) {
    && (forall p :: p in outputs ==> p.edge.Crosses(active))
    && after == if letThrough then Committed(middle, Immediates(outputs), accepted) else middle.(discarded := middle.discarded + outputs)
  }

  /** The messages of a list of invocations, and those given to a component in its visits. */
  function MessagesOf(given: seq<T.Invocation>): Log {
    if given == [] then []
    else
      var last := given[|given| - 1];
      MessagesOf(given[..|given| - 1]) + if last.OnMessages? then last.messages else []
  }

  function GivenTo(log: seq<Visit>, component: Id): Log {
    if log == [] then []
    else
      var last := log[|log| - 1];
      GivenTo(log[..|log| - 1], component) + if last.component == component then MessagesOf(last.given) else []
  }

  lemma GivenOne(log: seq<Visit>, visit: Visit, component: Id)
    ensures GivenTo(log + [visit], component) == GivenTo(log, component) + if visit.component == component then MessagesOf(visit.given) else []
  {
    assert (log + [visit])[..|log|] == log;
  }

  ghost predicate AsMessages(given: seq<T.Invocation>, groups: seq<Log>) {
    |groups| == |given| && forall i :: 0 <= i < |given| ==> given[i] == T.OnMessages(groups[i])
  }

  lemma {:induction false} MessagesFlat(given: seq<T.Invocation>, groups: seq<Log>)
    requires AsMessages(given, groups)
    ensures MessagesOf(given) == Flatten(groups)
  {
    if given != [] {
      MessagesFlat(given[..|given| - 1], groups[..|groups| - 1]);
    }
  }

  class EventRuntime {
    const router: RuntimePublicationRouter
    const order: seq<RunRegion>
    const world: World
    const engines: map<Id, T.TriggerPolicyEngine>
    const states: S.RuntimeStateStore
    const store: C.ConfigSnapshotStore
    const components: C.Components
    var visits: nat
    var signals: nat
    var tickCalls: nat
    ghost var log: seq<Visit>
    ghost var steps: seq<S.Step>
    ghost var trace: seq<Mark>
    /** What the bus had handed out before the run, and what executions have drained by themselves since. */
    ghost const before: Log
    ghost var own: Log

    constructor (router: RuntimePublicationRouter, order: seq<RunRegion>, world: World, engines: map<Id, T.TriggerPolicyEngine>,
                 states: S.RuntimeStateStore, store: C.ConfigSnapshotStore, components: C.Components, ghost past: seq<S.Step>)
      ensures this.router == router && this.order == order && this.world == world && this.engines == engines
      ensures this.states == states && this.store == store && this.components == components
      ensures visits == 0 && signals == 0 && tickCalls == 0 && log == [] && trace == [] && steps == past
      ensures own == [] && before == if router.bus == null then [] else router.bus.handed
    {
      this.router, this.order, this.world, this.engines := router, order, world, engines;
      this.states, this.store, this.components := states, store, components;
      visits, signals, tickCalls, log, trace, steps := 0, 0, 0, [], [], past;
      before, own := if router.bus == null then [] else router.bus.handed, [];
    }

    /** Every component has its own trigger entries. */
    ghost predicate EnginesRight()
      reads engines.Values
    {
      && (forall id :: id in engines ==> engines[id].Valid())
      && forall a, b :: a in engines && b in engines && a != b ==> engines[a] != engines[b]
    }

    /** Exactly what the trigger entries of a component emitted has been given to it in its visits. */
    ghost predicate GivenRight()
      reads `log, engines.Values
    {
      forall id :: id in engines && Listens(engines[id]) ==> engines[id].emitted == GivenTo(log, id)
    }

    /** An input that trigger entries read, under a name of its own among all of these. */
    ghost predicate OwnReader(id: Id, p: Id) {
      && id in engines && Listens(engines[id]) && p in engines[id].inputs
      && forall other :: other in engines && Listens(engines[other]) ==> Unshared(other, engines[other].inputs, id, p)
    }

    /** It has one if no name of an input contains a dot. */
    lemma PlainReads(id: Id, p: Id)
      requires id in engines && Listens(engines[id]) && p in engines[id].inputs
      requires forall other :: other in engines ==> forall q :: q in engines[other].inputs ==> Plain(q)
      ensures OwnReader(id, p)
    {
      hide Unshared, Plain;
      forall other | other in engines && Listens(engines[other]) ensures Unshared(other, engines[other].inputs, id, p) {
        PlainUnshared(other, engines[other].inputs, id, p);
      }
    }

    /** What was handed to an input of a listening component is what its trigger entries took in, but for what
        executions drained there by themselves. */
    ghost predicate ReadRight()
      reads `own, engines.Values, (if router.bus == null then {} else {router.bus})`handed
    {
      router.bus != null ==>
        && before <= router.bus.handed
        && forall id, p :: OwnReader(id, p) ==> Taken(engines[id], router.bus.handed[|before|..], own, id, p)
    }

    ghost predicate Taken(engine: T.TriggerPolicyEngine, handed: Log, own: Log, id: Id, p: Id)
      reads engine
    {
      p in engine.drained && Shared(handed, own, engine.drained[p], id + "." + p)
    }

    ghost predicate Sane()
      reads `visits, `log, `steps, `own, router, router.bus, engines.Values, states, store
    {
      && router.Valid() && EnginesRight() && GivenRight() && ReadRight() && store.Valid()
      && states.entries == S.Run(steps) && visits == |log|
    }

    ghost function Now(): Moment
      reads router, router.bus
    {
      Moment(router.ledger, router.Sent(), router.active, router.opening)
    }

    ghost function Left(): Trail
      reads `log, `steps, `signals, router, store
    {
      Trail(log, router.ledger.staged, steps, store.configs, store.pending, signals)
    }

    ghost function Tally(): Score
      reads `log, `tickCalls, router, store
    {
      Score(log, router.ledger.lost, store.configs, tickCalls)
    }

    ghost predicate Quiet()
      reads router
    {
      router.immediate == [] && router.composite == []
    }

    /** From the channels to the invocations, over the whole run: what an input's reader received from each channel is
        what its trigger entries drained, but for what executions drained there by themselves; and all of that is still
        pending, was given to the component in its visits, or was dropped. */
    ghost predicate EndToEnd(id: Id, p: Id)
      requires id in engines
      reads `log, `own, engines.Values, router.bus
    {
      var engine, reader := engines[id], id + "." + p;
      && p in engine.drained && p in engine.pending
      && multiset(engine.drained[p]) ==
           multiset(engine.pending[p]) + multiset(OnPort(GivenTo(log, id), p)) + multiset(OnPort(engine.dropped, p))
      && (router.bus != null ==> forall c :: c in router.bus.channels && c in router.bus.history ==>
           ReceivedShare(R.Received(router.bus.channels[c].config, router.bus.history[c], true, reader),
                         FromChannel(OnPort(before, reader), c), engine.drained[p], OnPort(own, reader), c))
    }

    ghost predicate Conserving()
      reads `log, `own, engines.Values, router.bus
    {
      forall id, p :: OwnReader(id, p) ==> EndToEnd(id, p)
    }

    lemma Conserved(id: Id, p: Id)
      requires Sane() && OwnReader(id, p)
      ensures EndToEnd(id, p)
    {
      hide RuntimePublicationRouter.OwnValid, C.ConfigSnapshotStore.Valid, S.Run, OnPort, GivenTo, FromChannel, R.Received, Shared,
        ReceivedShare, AllSound, RoutesKnown, Traced, Distinct, Unshared;
      assert engines[id].Valid();
      EngineLedger(engines[id], p);
      if router.bus != null {
        var bus: RuntimeChannelBus, reader := router.bus, id + "." + p;
        assert Taken(engines[id], bus.handed[|before|..], own, id, p);
        forall c | c in bus.channels && c in bus.history
          ensures ReceivedShare(R.Received(bus.channels[c].config, bus.history[c], true, reader), FromChannel(OnPort(before, reader), c),
                                engines[id].drained[p], OnPort(own, reader), c)
        {
          assert FromChannel(OnPort(bus.handed, reader), c) == R.Received(bus.channels[c].config, bus.history[c], true, reader);
          SharedByChannel(before, bus.handed, own, engines[id].drained[p], reader, c);
        }
      }
    }

    lemma AllConserved()
      requires Sane()
      ensures Conserving()
    {
      hide Sane, EndToEnd;
      forall id, p | OwnReader(id, p) ensures EndToEnd(id, p) {
        Conserved(id, p);
      }
    }

    // ----- what an execution does

    /** Everything taken off an input's channels arrives at the component's trigger entries. */
    method DrainInputs(component: Id, inputs: seq<Id>, now: int) returns (arrivals: Queues)
      requires router.Valid() && Distinct(inputs)
      modifies router.Buses()
      ensures router.Valid() && SentMore(old(router.Sent()), router.Sent(), [])
      ensures router.bus == null ==> arrivals == map[]
      ensures router.bus != null ==>
        (router.bus.channels, arrivals) == InputsDrained(old(router.bus.channels), router.bus.components, router.bus.ports, component, inputs, now)
      ensures router.bus != null ==> AllIn(inputs, arrivals) && router.bus.handed == old(router.bus.handed) + InputsLog(component, inputs, arrivals)
    {
      hide RuntimePublicationRouter.OwnValid, SentMore, AllSound, RoutesKnown, Traced, HandedRight, Drained, PortIds, Route, AllIn,
        InputsLog, Distinct, Tagged;
      SentNothing(router.Sent());
      arrivals := map[];
      if router.bus == null {
        return;
      }
      var bus: RuntimeChannelBus := router.bus;
      assert RoutesKnown(bus.channels, bus.components);
      assert inputs[..0] == [];
      NothingLogged(component, arrivals);
      assert bus.handed + [] == bus.handed;
      for i := 0 to |inputs|
        invariant router.Valid() && SentMore(old(bus.history), bus.history, [])
        invariant (bus.channels, arrivals) == InputsDrained(old(bus.channels), bus.components, bus.ports, component, inputs[..i], now)
        invariant AllIn(inputs[..i], arrivals) && bus.handed == old(bus.handed) + InputsLog(component, inputs[..i], arrivals)
      {
        assert inputs[..i + 1][..i] == inputs[..i] && inputs[..i + 1][i] == inputs[i];
        ghost var h := bus.history;
        ghost var ids;
        var messages;
        messages, ids := bus.DrainForComponentPort(component, inputs[i], now, 0);
        SentNoMore(old(bus.history), h, bus.history);
        InputsLogOne(component, inputs, i, arrivals, messages);
        assert bus.handed == old(bus.handed) + (InputsLog(component, inputs[..i], arrivals) + Tagged(component + "." + inputs[i], messages));
        arrivals := arrivals[inputs[i] := messages];
      }
      assert inputs[..|inputs|] == inputs;
    }

    /** Drains the inputs of a component that listens to messages, and asks its trigger policy what is ready. A
        component the graph does not know has nothing to do. */
    method Collect(component: Id, now: int) returns (given: seq<T.Invocation>)
      requires router.Valid() && EnginesRight() && ReadRight()
      modifies router.Buses(), engines.Values
      ensures router.Valid() && EnginesRight() && ReadRight() && SentMore(old(router.Sent()), router.Sent(), [])
      ensures GivenAsReady(component, given, now)
      ensures router.bus != null ==> router.bus.channels == old(ChannelsLeft(component, now))
      ensures forall id :: id in engines && id != component ==> engines[id].emitted == old(engines[id].emitted)
    {
      hide RuntimePublicationRouter.Valid, SentMore, T.TriggerPolicyEngine.Valid, InputsDrained, InputsLog, Shared, AllIn, OwnReader, T.Received,
        Distinct, Answers;
      SentNothing(router.Sent());
      if component !in engines {
        return [];
      }
      var engine := engines[component];
      if Listens(engine) {
        given := CollectListening(component, now);
      } else {
        given := engine.CollectReady(now, map[], world.domain(component));
      }
    }

    method CollectListening(component: Id, now: int) returns (given: seq<T.Invocation>)
      requires router.Valid() && EnginesRight() && ReadRight() && component in engines && Listens(engines[component])
      modifies router.Buses(), engines[component]
      ensures router.Valid() && EnginesRight() && ReadRight() && SentMore(old(router.Sent()), router.Sent(), [])
      ensures GivenAsReady(component, given, now)
      ensures router.bus != null ==> router.bus.channels == old(ChannelsLeft(component, now))
    {
      hide RuntimePublicationRouter.Valid, SentMore, T.TriggerPolicyEngine.Valid, T.TriggerPolicyEngine.Answered, InputsDrained, InputsLog,
        Shared, AllIn, OwnReader, T.Received, Distinct, ReadRight, WasTaken;
      var engine := engines[component];
      EngineShaped(engine);
      ghost var handed, was := if router.bus == null then [] else router.bus.handed, map id | id in engines :: engines[id].drained;
      WasRight(was);
      var arrived := DrainInputs(component, engine.inputs, now);
      given := Ask(component, arrived, now);
      ReadOn(component, arrived, handed, was);
    }

    /** Hands arrivals to the trigger policy of a component, and takes what is ready. */
    method Ask(component: Id, arrived: Queues, now: int) returns (given: seq<T.Invocation>)
      requires EnginesRight() && component in engines && Listens(engines[component])
      modifies engines[component]
      ensures EnginesRight() && Answers(engines[component], arrived, given, now, world.domain(component))
    {
      hide T.TriggerPolicyEngine.Valid, T.Received;
      given := engines[component].CollectReady(now, arrived, world.domain(component));
    }

    /** What every input's trigger entries had drained. */
    ghost predicate WasTaken(handed: Log, was: map<Id, Queues>)
      reads `own
    {
      && before <= handed
      && forall id, p :: OwnReader(id, p) && id in was ==> p in was[id] && Shared(handed[|before|..], own, was[id][p], id + "." + p)
    }

    lemma WasRight(was: map<Id, Queues>)
      requires ReadRight() && was == map id | id in engines :: engines[id].drained
      ensures router.bus != null ==> WasTaken(router.bus.handed, was)
    {
      hide Shared, Unshared;
      if router.bus != null {
        forall id, p | OwnReader(id, p) && id in was
          ensures p in was[id] && Shared(router.bus.handed[|before|..], own, was[id][p], id + "." + p)
        {
          assert Taken(engines[id], router.bus.handed[|before|..], own, id, p);
        }
      }
    }

    /** Draining the inputs of one component keeps the account right for all. */
    lemma ReadOn(component: Id, arrived: Queues, handed: Log, was: map<Id, Queues>)
      requires EnginesRight() && component in engines && Listens(engines[component]) && was.Keys == engines.Keys
      requires router.bus != null ==> WasTaken(handed, was) && AllIn(engines[component].inputs, arrived)
      requires router.bus != null ==> router.bus.handed == handed + InputsLog(component, engines[component].inputs, arrived)
      requires forall id :: id in engines ==> engines[id].drained == if id == component then T.Received(was[id], arrived) else was[id]
      ensures ReadRight()
    {
      hide T.TriggerPolicyEngine.Valid, InputsLog, Shared, AllIn, Unshared, T.Received, Distinct;
      EngineShaped(engines[component]);
      if router.bus != null {
        SinceThen(before, handed, InputsLog(component, engines[component].inputs, arrived));
        forall id, p | OwnReader(id, p)
          ensures Taken(engines[id], router.bus.handed[|before|..], own, id, p)
        {
          SharedStep(handed[|before|..], own, was[id], engines[id].drained, component, engines[component].inputs, arrived, id, p);
        }
      }
    }

    /** What draining the inputs of a component would take off the channels, and what it would leave on them. */
    ghost function Arrivals(component: Id, now: int): Queues
      requires router.Valid() && component in engines
      reads router, router.bus
    {
      if router.bus == null then map[]
      else InputsDrained(router.bus.channels, router.bus.components, router.bus.ports, component, engines[component].inputs, now).1
    }

    ghost function ChannelsLeft(component: Id, now: int): ChannelMap
      requires router.Valid() && router.bus != null
      reads router, router.bus
    {
      if component in engines && Listens(engines[component]) then
        InputsDrained(router.bus.channels, router.bus.components, router.bus.ports, component, engines[component].inputs, now).0
      else router.bus.channels
    }

    /** What a component was given is what it was ready for: a timer tick, a manual run, or what its trigger policy
        made of the messages that its inputs' channels held. */
    twostate predicate GivenAsReady(component: Id, given: seq<T.Invocation>, now: int)
      requires old(router.Valid())
      requires component in engines ==> old(engines[component].Valid()) && engines[component].Valid()
      reads if component in engines then {engines[component]} else {}
    {
      if component !in engines then given == []
      else if engines[component].hasTimer then given == [T.OnTick]
      else if !engines[component].hasMessages then given == [T.Manual]
      else Answers(engines[component], old(Arrivals(component, now)), given, now, world.domain(component))
    }

    predicate Listens(engine: T.TriggerPolicyEngine) {
      !engine.hasTimer && engine.hasMessages
    }

    /** The trigger policy takes in what arrived, and gives out what it makes of it, which is logged as emitted. */
    twostate predicate Answers(engine: T.TriggerPolicyEngine, arrivals: Queues, given: seq<T.Invocation>, now: int, domain: Domain)
      requires old(engine.Valid()) && engine.Valid()
      reads engine
    {
      && engine.drained == T.Received(old(engine.drained), arrivals)
      && exists groups: seq<Log> ::
          && AsMessages(given, groups) && engine.emitted == old(engine.emitted) + Flatten(groups)
          && engine.Answered(old(engine.pending), arrivals, engine.pending, old(engine.watermarks), engine.watermarks, old(engine.TooSoon(now)),
                             groups, now, domain)
    }

    /** Drains ports of a component on behalf of one of its executions. */
    method DrainPorts(component: Id, drains: seq<Drain>, now: int)
      requires router.Valid() && ReadRight()
      modifies this`own, router.Buses()
      ensures router.Valid() && ReadRight() && SentMore(old(router.Sent()), router.Sent(), [])
      ensures router.bus == null ==> own == old(own)
      ensures router.bus != null ==>
        router.bus.channels == PortsDrained(old(router.bus.channels), router.bus.components, router.bus.ports, component, drains, now)
      ensures router.bus != null ==> SameGrowth(old(router.bus.handed), router.bus.handed, old(own), own)
    {
      hide RuntimePublicationRouter.OwnValid, AllSound, RoutesKnown, Traced, HandedRight, SentMore, Drained, PortIds, Route, Tagged, Shared,
        Unshared;
      SentNothing(router.Sent());
      if router.bus == null {
        return;
      }
      var bus: RuntimeChannelBus := router.bus;
      assert RoutesKnown(bus.channels, bus.components);
      assert drains[..0] == [];
      ghost var more: Log := [];
      for i := 0 to |drains|
        invariant router.Valid() && SentMore(old(bus.history), bus.history, [])
        invariant bus.channels == PortsDrained(old(bus.channels), bus.components, bus.ports, component, drains[..i], now)
        invariant bus.handed == old(bus.handed) + more && own == old(own) + more
      {
        assert drains[..i + 1][..i] == drains[..i] && drains[..i + 1][i] == drains[i];
        ghost var h := bus.history;
        ghost var ids;
        var messages;
        messages, ids := bus.DrainForComponentPort(component, drains[i].port, now, drains[i].max);
        SentNoMore(old(bus.history), h, bus.history);
        own, more := own + Tagged(component + "." + drains[i].port, messages), more + Tagged(component + "." + drains[i].port, messages);
      }
      assert drains[..|drains|] == drains;
      SinceThen(before, old(bus.handed), more);
      forall id, p | OwnReader(id, p)
        ensures Taken(engines[id], bus.handed[|before|..], own, id, p)
      {
        SharedOwn(old(bus.handed)[|before|..], old(own), engines[id].drained[p], more, id + "." + p);
      }
    }

    lemma BusWired()
      requires router.Valid()
      ensures router.bus != null ==> RoutesKnown(router.bus.channels, router.bus.components)
    {
    }

    method WriteStates(writes: seq<S.Write>)
      requires states.entries == S.Run(steps)
      modifies this`steps, states
      ensures steps == old(steps) + Stagings(writes) && states.entries == S.Run(steps)
    {
      hide S.After;
      assert Stagings(writes[..0]) == [];
      for i := 0 to |writes|
        invariant steps == old(steps) + Stagings(writes[..i]) && states.entries == S.Run(steps)
      {
        var accepted := states.StageWrite(writes[i]);
        StepTaken(steps, S.Stage(writes[i]));
        steps := steps + [S.Stage(writes[i])];
        assert Stagings(writes[..i + 1]) == Stagings(writes[..i]) + [S.Stage(writes[i])];
      }
      assert writes[..|writes|] == writes;
    }

    method AskUpdates(updates: seq<Update>)
      requires store.Valid()
      modifies store
      ensures store.Valid() && store.configs == old(store.configs)
      ensures store.pending == PendingAfter(old(store.pending), updates)
    {
      hide C.ConfigSnapshotStore.Valid;
      assert updates[..0] == [];
      for i := 0 to |updates|
        invariant store.Valid() && store.configs == old(store.configs)
        invariant store.pending == PendingAfter(old(store.pending), updates[..i])
      {
        assert updates[..i + 1][..i] == updates[..i];
        var result := store.StageUpdate(updates[i].id, updates[i].config, true);
      }
      assert updates[..|updates|] == updates;
    }

    /** Each output is staged on the edges of its endpoint, up to the first one that is not willing to take it. */
    method PublishOutputs(component: Id, outputs: seq<Emission>, ghost start: Start)
      requires router.Valid() && Tracks(start, router.Stores(), router.ledger) && Fenced(router.immediate, router.active)
      modifies router
      ensures router.Valid() && Moves(old(Now()), Now()) && router.ledger.lost == old(router.ledger.lost)
      ensures Tracks(start, router.Stores(), router.ledger) && Fenced(router.immediate, router.active)
      ensures old(router.ledger.staged) <= router.ledger.staged
      ensures StagedFor(start, old(router.ledger.staged), router.ledger.staged, router.table, Sourced(component, outputs))
      ensures Joined(old(router.Stores()), old(router.ledger), router.Stores(), router.ledger, router.active)
      ensures router.ledger.committed == old(router.ledger.committed)
    {
      hide Joined, RuntimePublicationRouter.Valid, Moves, FannedTo, OneStaged, Tracks, Fenced;
      MovesNot(Now());
      ghost var sources := Sourced(component, outputs);
      TracksBound(start, router.Stores(), router.ledger);
      JoinedNothing(router.Stores(), router.ledger, router.active);
      for i := 0 to |outputs|
        invariant router.Valid() && Moves(old(Now()), Now()) && router.ledger.lost == old(router.ledger.lost)
        invariant Tracks(start, router.Stores(), router.ledger) && Fenced(router.immediate, router.active)
        invariant old(router.ledger.staged) <= router.ledger.staged
        invariant StagedFor(start, old(router.ledger.staged), router.ledger.staged, router.table, sources[..i])
        invariant Joined(old(router.Stores()), old(router.ledger), router.Stores(), router.ledger, router.active)
        invariant router.ledger.committed == old(router.ledger.committed) && router.active == old(router.active)
      {
        ghost var earlier, st := Now(), router.Stores();
        var endpoint := component + "." + outputs[i].port;
        var accepted := router.PublishFrom(endpoint, Some(outputs[i].payload), outputs[i].stamp);
        PublishMoves(earlier, Now(), start, st, router.Stores(), router.table, sources[i], accepted);
        MovesTransitive(old(Now()), earlier, Now());
        JoinedChain(old(router.Stores()), old(router.ledger), st, earlier.ledger, router.Stores(), router.ledger, router.active);
        StagedForOne(start, old(router.ledger.staged), earlier.ledger.staged, router.ledger.staged, router.table, sources[..i], sources[i]);
        assert sources[..i] + [sources[i]] == sources[..i + 1];
      }
      assert sources[..|outputs|] == sources;
    }

    /** On the channels, nothing happened but these reads. */
    ghost predicate DrainedBy(channels: ChannelMap, bus: RuntimeChannelBus, component: Id, drains: seq<Drain>, now: int)
      reads bus
    {
      RoutesKnown(channels, bus.components) && bus.channels == PortsDrained(channels, bus.components, bus.ports, component, drains, now)
    }

    /** What an execution does apart from publishing: its own reads, its writes, and the updates it asks for. */
    method Exchange(component: Id, e: Execution, now: int)
      requires Sane()
      modifies this`steps, this`own, router.Buses(), states, store
      ensures Sane() && Moves(old(Now()), Now())
      ensures steps == old(steps) + Stagings(e.writes) && store.configs == old(store.configs)
      ensures store.pending == PendingAfter(old(store.pending), e.updates)
      ensures router.bus != null ==> DrainedBy(old(router.bus.channels), router.bus, component, e.drains, now)
    {
      hide RuntimePublicationRouter.Valid, PortsDrained, EnginesRight, GivenRight, ReadRight, C.ConfigSnapshotStore.Valid, S.Run, Moves,
        SentMore, Stagings, PendingAfter, SameGrowth;
      BusWired();
      DrainPorts(component, e.drains, now);
      MovesReading(old(Now()), Now());
      WriteStates(e.writes);
      AskUpdates(e.updates);
    }

    /** One execution: its own reads, its writes, the updates it asks for, and its publications. */
    method Act(component: Id, e: Execution, now: int, ghost start: Start)
      requires Sane() && Tracks(start, router.Stores(), router.ledger) && Fenced(router.immediate, router.active)
      modifies this`steps, this`own, router, router.Buses(), states, store
      ensures Sane() && Moves(old(Now()), Now()) && router.ledger.lost == old(router.ledger.lost)
      ensures Tracks(start, router.Stores(), router.ledger) && Fenced(router.immediate, router.active)
      ensures Acted(start, router.table, old(Left()), Left(), [Done(component, e)]) && store.configs == old(store.configs)
      ensures router.bus != null ==> DrainedBy(old(router.bus.channels), router.bus, component, e.drains, now)
      ensures Joined(old(router.Stores()), old(router.ledger), router.Stores(), router.ledger, router.active)
      ensures router.ledger.committed == old(router.ledger.committed)
    {
      hide Joined, RuntimePublicationRouter.Valid, DrainedBy, EnginesRight, GivenRight, ReadRight, C.ConfigSnapshotStore.Valid, S.Run,
        Moves, Tracks, Fenced, StagedFor, Sourced, Stagings, PendingAfter, OutputsOf, WritesOf, UpdatesOf, Pending;
      TracksBound(start, router.Stores(), router.ledger);
      Exchange(component, e, now);
      ghost var earlier := Now();
      PublishOutputs(component, e.outputs, start);
      MovesTransitive(old(Now()), earlier, Now());
      EffectsOne(Done(component, e));
    }

    /** Commits what was published on immediate edges. */
    method CommitImmediate(now: int, ghost start: Start) returns (ok: bool)
      requires Sane() && Tracks(start, router.Stores(), router.ledger) && Fenced(router.immediate, router.active)
      modifies router, router.Buses()
      ensures Sane() && Moves(old(Now()), Now()) && router.immediate == [] && Left() == old(Left())
      ensures Tracks(start, router.Stores(), router.ledger) && Fenced(router.immediate, router.active)
      ensures ok <==> router.ledger.lost == old(router.ledger.lost)
      ensures ok ==> router.ledger.committed == old(router.ledger.committed) + old(router.immediate)
      ensures router.bus != null ==> BusCommitted(old(router.bus.channels), router.bus.channels, old(router.immediate), ok, now)
    {
      hide RuntimePublicationRouter.Valid, EnginesRight, GivenRight, ReadRight, C.ConfigSnapshotStore.Valid, S.Run, Progress, Carried, WellPlaced,
        Tracks, Fenced, BusCommitted, OutputsUntouched, Pending;
      router.WhatIsValid();
      ghost var st, l := router.Stores(), router.ledger;
      ok := router.CommitImmediate(now);
      CommitProgress(st, l, router.active, ok);
      LostMore(l, st.immediate, ok);
      TracksSame(start, st, l, router.Stores(), router.ledger);
      assert router.Stores().immediate == [];
      NoneCrosses(router.active);
    }

    // ----- visits

    /** Where a visit happens. */
    ghost function Here(start: Start, now: int): Place
      requires router.bus != null
      reads router
    {
      Place(router.bus.components, router.bus.ports, start, router.table, router.active, now)
    }

    /** One execution and its own commit. */
    method ExecuteAndCommit(component: Id, e: Execution, now: int, ghost start: Start) returns (ok: bool)
      requires Sane() && router.immediate == [] && Tracks(start, router.Stores(), router.ledger)
      modifies this`steps, this`own, router, router.Buses(), states, store
      ensures Sane() && Moves(old(Now()), Now()) && router.active == old(router.active)
      ensures (ok <==> e.ok && router.ledger.lost == old(router.ledger.lost)) && store.configs == old(store.configs)
      ensures ok ==> router.immediate == [] && router.ledger.lost == old(router.ledger.lost)
      ensures ok ==> Tracks(start, router.Stores(), router.ledger)
      ensures ok ==> Acted(start, router.table, old(Left()), Left(), [Done(component, e)])
      ensures ok ==> SettledInside(old(router.ledger), router.ledger, [], router.active)
      ensures ok && router.bus != null ==>
        OneInvoked(Here(start, now), old(router.bus.channels), old(router.ledger.staged), router.bus.channels, router.ledger.staged,
                   Done(component, e))
    {
      hide Sane, Moves, Tracks, Fenced, Acted, SettledInside, Joined, BusCommitted, OneInvoked;
      TracksBound(start, router.Stores(), router.ledger);
      NoneCrosses(router.active);
      SettledFirst(router.ledger, router.active);
      ghost var st, l, left := router.Stores(), router.ledger, Left();
      Act(component, e, now, start);
      ghost var earlier, mid := Now(), router.Stores();
      MovesActive(old(Now()), earlier);
      if !e.ok {
        return false;
      }
      SettledJoined(l, st, l, mid, earlier.ledger, router.active);
      ghost var drained := if router.bus == null then map[] else router.bus.channels;
      ok := CommitImmediate(now, start);
      MovesActive(earlier, Now());
      MovesTransitive(old(Now()), earlier, Now());
      if ok {
        SettledCommitted(l, earlier.ledger, mid.immediate, router.ledger, router.active);
        if router.bus != null {
          OneDone(Here(start, now), left, Left(), st, l, mid, earlier.ledger, old(router.bus.channels), drained, router.bus.channels,
                  Done(component, e));
        }
      }
    }

    /** Executes the invocations of a visit one by one. */
    method ExecuteSequential(component: Id, given: seq<T.Invocation>, v: nat, ghost start: Start) returns (ok: bool)
      requires Sane() && router.immediate == [] && Tracks(start, router.Stores(), router.ledger)
      modifies this`tickCalls, this`steps, this`own, router, router.Buses(), states, store
      ensures Sane() && Moves(old(Now()), Now()) && router.active == old(router.active)
      ensures (ok <==> GivenSucceeds(world, v, given) && router.ledger.lost == old(router.ledger.lost)) && store.configs == old(store.configs)
      ensures ok ==> router.immediate == [] && router.ledger.lost == old(router.ledger.lost)
      ensures ok ==> Tracks(start, router.Stores(), router.ledger)
      ensures ok ==> Acted(start, router.table, old(Left()), Left(), VisitDone(world, v, Visit(component, given)))
      ensures ok ==> tickCalls == old(tickCalls) + |given|
      ensures ok ==> SettledInside(old(router.ledger), router.ledger, [], router.active)
      ensures ok && router.bus != null ==>
        InvokedInTurn(Here(start, world.now(v)), old(router.bus.channels), old(router.ledger.staged), router.bus.channels,
                      router.ledger.staged, VisitDone(world, v, Visit(component, given)))
    {
      hide Sane, Moves, Tracks, Acted, SettledInside, OneInvoked;
      ghost var done, now := VisitDone(world, v, Visit(component, given)), world.now(v);
      MovesNot(Now());
      TracksBound(start, router.Stores(), router.ledger);
      ActedNothing(start, router.table, Left(), Left());
      SettledFirst(router.ledger, router.active);
      assert done[..0] == [];
      hide InvokedInTurn;
      for i := 0 to |given|
        invariant Sane() && Moves(old(Now()), Now()) && router.immediate == [] && router.ledger.lost == old(router.ledger.lost)
        invariant Tracks(start, router.Stores(), router.ledger) && router.active == old(router.active)
        invariant Acted(start, router.table, old(Left()), Left(), done[..i]) && tickCalls == old(tickCalls) + i
        invariant SettledInside(old(router.ledger), router.ledger, [], router.active)
        invariant store.configs == old(store.configs) && forall j :: 0 <= j < i ==> world.execute(v, j, given[j]).ok
        invariant router.bus != null ==>
          InvokedInTurn(Here(start, now), old(router.bus.channels), old(router.ledger.staged), router.bus.channels, router.ledger.staged, done[..i])
      {
        ghost var earlier, left := Now(), Left();
        ghost var channels := if router.bus == null then map[] else router.bus.channels;
        ok := ExecuteAndCommit(component, world.execute(v, i, given[i]), world.now(v), start);
        MovesTransitive(old(Now()), earlier, Now());
        if !ok {
          return;
        }
        ActedChain(start, router.table, old(Left()), left, Left(), done[..i], [done[i]]);
        assert done[..i] + [done[i]] == done[..i + 1];
        SettledChain(old(router.ledger), earlier.ledger, router.ledger, router.active);
        if router.bus != null {
          InTurnMore(Here(start, now), old(router.bus.channels), old(router.ledger.staged), channels, earlier.ledger.staged,
                     router.bus.channels, router.ledger.staged, done[..i], done[i]);
        }
        tickCalls := tickCalls + 1;
      }
      assert done[..|given|] == done;
      ok := true;
    }

    /** Executes the invocations of a visit side by side, and commits once after all of them. */
    method ExecuteTogether(component: Id, given: seq<T.Invocation>, v: nat, ghost start: Start) returns (ok: bool)
      requires Sane() && router.immediate == [] && Tracks(start, router.Stores(), router.ledger)
      modifies this`tickCalls, this`steps, this`own, router, router.Buses(), states, store
      ensures Sane() && Moves(old(Now()), Now()) && router.active == old(router.active)
      ensures (ok <==> GivenSucceeds(world, v, given) && router.ledger.lost == old(router.ledger.lost)) && store.configs == old(store.configs)
      ensures ok ==> router.immediate == [] && router.ledger.lost == old(router.ledger.lost)
      ensures ok ==> Tracks(start, router.Stores(), router.ledger)
      ensures ok ==> Acted(start, router.table, old(Left()), Left(), VisitDone(world, v, Visit(component, given)))
      ensures ok ==> tickCalls == old(tickCalls) + |given|
      ensures ok ==> SettledInside(old(router.ledger), router.ledger, [], router.active)
      ensures ok && router.bus != null ==>
        InvokedTogether(Here(start, world.now(v)), old(router.bus.channels), old(router.ledger.staged), router.bus.channels,
                        router.ledger.staged, VisitDone(world, v, Visit(component, given)))
    {
      hide Sane, Moves, Tracks, Acted, Fenced, SettledInside, Joined, BusCommitted;
      ghost var done, st := VisitDone(world, v, Visit(component, given)), router.Stores();
      SettledFirst(router.ledger, router.active);
      ExecuteAll(component, given, v, start);
      if given == [] {
        ok := true;
        return;
      }
      for i := 0 to |given|
        modifies this`tickCalls
        invariant tickCalls == old(tickCalls) + i && forall j :: 0 <= j < i ==> world.execute(v, j, given[j]).ok
      {
        if !world.execute(v, i, given[i]).ok {
          return false;
        }
        tickCalls := tickCalls + 1;
      }
      ghost var earlier, mid := Now(), router.Stores();
      ghost var drained := if router.bus == null then map[] else router.bus.channels;
      SettledJoined(old(router.ledger), st, old(router.ledger), mid, earlier.ledger, router.active);
      ok := CommitImmediate(world.now(v), start);
      MovesActive(earlier, Now());
      MovesTransitive(old(Now()), earlier, Now());
      if ok {
        SettledCommitted(old(router.ledger), earlier.ledger, mid.immediate, router.ledger, router.active);
        if router.bus != null {
          TogetherDone(Here(start, world.now(v)), st, old(router.ledger), mid, earlier.ledger, old(router.bus.channels), drained,
                       router.bus.channels, done);
        }
      }
    }

    /** Executes invocations without committing anything. */
    method ExecuteAll(component: Id, given: seq<T.Invocation>, v: nat, ghost start: Start)
      requires Sane() && router.immediate == [] && Tracks(start, router.Stores(), router.ledger)
      modifies this`steps, this`own, router, router.Buses(), states, store
      ensures Sane() && Moves(old(Now()), Now()) && router.active == old(router.active) && router.ledger.lost == old(router.ledger.lost)
      ensures Tracks(start, router.Stores(), router.ledger) && Fenced(router.immediate, router.active)
      ensures Acted(start, router.table, old(Left()), Left(), VisitDone(world, v, Visit(component, given)))
      ensures store.configs == old(store.configs)
      ensures Joined(old(router.Stores()), old(router.ledger), router.Stores(), router.ledger, router.active)
      ensures router.ledger.committed == old(router.ledger.committed)
      ensures router.bus != null ==>
        DrainedSoFar(Here(start, world.now(v)), old(router.bus.channels), router.bus.channels, VisitDone(world, v, Visit(component, given)))
      ensures given == [] ==> router.Stores() == old(router.Stores()) && router.ledger == old(router.ledger)
    {
      hide Sane, Moves, Tracks, Acted, Fenced, Joined, DrainedSoFar;
      ghost var done, now := VisitDone(world, v, Visit(component, given)), world.now(v);
      MovesNot(Now());
      TracksBound(start, router.Stores(), router.ledger);
      ActedNothing(start, router.table, Left(), Left());
      NoneCrosses(router.active);
      JoinedNothing(router.Stores(), router.ledger, router.active);
      NothingDrained(start, now);
      assert done[..0] == [];
      for i := 0 to |given|
        invariant Sane() && Moves(old(Now()), Now()) && router.active == old(router.active) && router.ledger.lost == old(router.ledger.lost)
        invariant Tracks(start, router.Stores(), router.ledger) && Fenced(router.immediate, router.active)
        invariant Acted(start, router.table, old(Left()), Left(), done[..i])
        invariant Joined(old(router.Stores()), old(router.ledger), router.Stores(), router.ledger, router.active)
        invariant router.ledger.committed == old(router.ledger.committed) && store.configs == old(store.configs)
        invariant router.bus != null ==> DrainedSoFar(Here(start, now), old(router.bus.channels), router.bus.channels, done[..i])
        invariant i == 0 ==> router.Stores() == old(router.Stores()) && router.ledger == old(router.ledger)
      {
        ghost var earlier, left, st := Now(), Left(), router.Stores();
        ghost var channels := if router.bus == null then map[] else router.bus.channels;
        Act(component, world.execute(v, i, given[i]), world.now(v), start);
        MovesActive(earlier, Now());
        MovesTransitive(old(Now()), earlier, Now());
        ActedChain(start, router.table, old(Left()), left, Left(), done[..i], [done[i]]);
        assert done[..i] + [done[i]] == done[..i + 1];
        JoinedChain(old(router.Stores()), old(router.ledger), st, earlier.ledger, router.Stores(), router.ledger, router.active);
        if router.bus != null {
          DrainedOn(Here(start, now), old(router.bus.channels), channels, done[..i], done[i]);
        }
      }
      assert done[..|given|] == done;
    }

    lemma NothingDrained(start: Start, now: int)
      requires Sane()
      ensures router.bus != null ==> DrainedSoFar(Here(start, now), router.bus.channels, router.bus.channels, [])
    {
      hide EnginesRight, GivenRight, ReadRight, C.ConfigSnapshotStore.Valid, S.Run;
      BusWired();
    }

    lemma DrainedOn(w: Place, a: ChannelMap, mid: ChannelMap, done: seq<Done>, d: Done)
      requires router.bus != null && DrainedSoFar(w, a, mid, done)
      requires w.routes == router.bus.components && w.ports == router.bus.ports
      requires DrainedBy(mid, router.bus, d.component, d.execution.drains, w.now)
      ensures DrainedSoFar(w, a, router.bus.channels, done + [d])
    {
      hide DrainedInTurn, PortsDrained;
      DrainedMore(w, a, done, d);
    }

    /** Executes the invocations of a visit. Immediate publications are committed after each of them, or once after
        all of them when they run side by side. */
    method Invoke(component: Id, given: seq<T.Invocation>, v: nat, ghost start: Start) returns (ok: bool)
      requires Sane() && router.immediate == [] && Tracks(start, router.Stores(), router.ledger)
      modifies this`tickCalls, this`steps, this`own, router, router.Buses(), states, store
      ensures Sane() && Moves(old(Now()), Now()) && router.active == old(router.active)
      ensures (ok <==> GivenSucceeds(world, v, given) && router.ledger.lost == old(router.ledger.lost)) && store.configs == old(store.configs)
      ensures ok ==> router.immediate == [] && router.ledger.lost == old(router.ledger.lost)
      ensures ok ==> Tracks(start, router.Stores(), router.ledger)
      ensures ok ==> Acted(start, router.table, old(Left()), Left(), VisitDone(world, v, Visit(component, given)))
      ensures ok ==> tickCalls == old(tickCalls) + |given|
      ensures ok ==> SettledInside(old(router.ledger), router.ledger, [], router.active)
      ensures ok && router.bus != null ==>
        Invoked(Here(start, world.now(v)), world.commitsEach(component), old(router.bus.channels), old(router.ledger.staged),
                router.bus.channels, router.ledger.staged, VisitDone(world, v, Visit(component, given)))
    {
      hide Sane, Moves, Tracks, Acted, SettledInside, InvokedInTurn, InvokedTogether, VisitDone;
      if world.commitsEach(component) {
        ok := ExecuteSequential(component, given, v, start);
      } else {
        ok := ExecuteTogether(component, given, v, start);
      }
    }

    /** Drains the inputs of a component, asks its trigger policy, and enters the visit in the log. */
    method Prepare(component: Id) returns (given: seq<T.Invocation>)
      requires Sane()
      modifies this`visits, this`log, router.Buses(), engines.Values
      ensures Sane() && Moves(old(Now()), Now()) && log == old(log) + [Visit(component, given)]
      ensures GivenAsReady(component, given, world.now(old(visits)))
      ensures router.bus != null ==> router.bus.channels == old(ChannelsLeft(component, world.now(visits)))
    {
      hide RuntimePublicationRouter.Valid, EnginesRight, ReadRight, C.ConfigSnapshotStore.Valid, S.Run, Moves, SentMore, InputsDrained, GivenTo,
        MessagesOf, AsMessages, Flatten;
      given := Collect(component, world.now(visits));
      MovesReading(old(Now()), Now());
      ghost var visit := Visit(component, given);
      forall id | id in engines && Listens(engines[id]) ensures engines[id].emitted == GivenTo(log + [visit], id) {
        GivenOne(log, visit, id);
        if id == component {
          var groups: seq<Log> :| AsMessages(given, groups) && engines[id].emitted == old(engines[id].emitted) + Flatten(groups);
          MessagesFlat(given, groups);
        }
      }
      visits, log := visits + 1, log + [visit];
    }

    /** Visits a component: drains its inputs, and runs what it is ready for. */
    method ExecuteComponent(component: Id, ghost start: Start) returns (ok: bool, ghost visit: Visit)
      requires Sane() && router.immediate == [] && Tracks(start, router.Stores(), router.ledger)
      modifies this`visits, this`tickCalls, this`log, this`steps, this`own, router, router.Buses(), engines.Values, states, store
      ensures Sane() && Moves(old(Now()), Now())
      ensures ok ==> router.immediate == [] && router.ledger.lost == old(router.ledger.lost)
      ensures ok ==> Tracks(start, router.Stores(), router.ledger)
      ensures ok ==> Performed(world, start, router.table, old(Left()), Left())
      ensures visit.component == component && log == old(log) + [visit]
      ensures (ok <==> GivenSucceeds(world, old(visits), visit.given) && router.ledger.lost == old(router.ledger.lost))
      ensures store.configs == old(store.configs)
      ensures GivenAsReady(component, visit.given, world.now(old(visits)))
      ensures ok ==> SettledInside(old(router.ledger), router.ledger, [], router.active)
      ensures ok && router.bus != null ==>
        Invoked(Here(start, world.now(old(visits))), world.commitsEach(component), old(ChannelsLeft(component, world.now(visits))),
                old(router.ledger.staged), router.bus.channels, router.ledger.staged, VisitDone(world, old(visits), visit))
      ensures ok ==> tickCalls == old(tickCalls) + |visit.given|
    {
      hide RuntimePublicationRouter.OwnValid, RuntimePublicationRouter.Valid, C.ConfigSnapshotStore.Valid, S.Run, EnginesRight, Sane, Moves,
        Tracks, Acted, Performed, Answers, Arrivals, Listens, InputsDrained, VisitDone, GivenAsReady, StagedFor, Pending, SettledInside,
        Invoked, ChannelsLeft, Here, VisitedFrom, Visited, Fared, GivenSucceeds;
      var v := visits;
      assert v == |log| && router.Valid() && EnginesRight() by { VisitsCounted(); }
      var given := Prepare(component);
      visit := Visit(component, given);
      ghost var earlier := Now();
      ok := Invoke(component, given, v, start);
      MovesTransitive(old(Now()), earlier, Now());
      VisitsCounted();
      if ok {
        VisitPerformed(world, start, router.table, old(Left()), Left(), visit);
      }
    }

    lemma VisitsCounted()
      requires Sane()
      ensures visits == |log| && router.Valid() && EnginesRight()
    {
    }

    /** One visit, as a part of many. */
    method ExecuteNext(component: Id, ghost start: Start) returns (ok: bool)
      requires Sane() && router.immediate == [] && Tracks(start, router.Stores(), router.ledger)
      modifies this`visits, this`tickCalls, this`log, this`steps, this`own, router, router.Buses(), engines.Values, states, store
      ensures Sane() && Moves(old(Now()), Now()) && Fared(world, old(Tally()), Tally(), ok)
      ensures ok ==> router.immediate == [] && router.ledger.lost == old(router.ledger.lost)
      ensures ok ==> Tracks(start, router.Stores(), router.ledger)
      ensures ok ==> Performed(world, start, router.table, old(Left()), Left()) && VisitedFrom(old(Left()), Left(), [component])
      ensures ok ==> SettledInside(old(router.ledger), router.ledger, [], router.active)
    {
      hide Sane, Moves, Tracks, Performed, VisitedFrom, SettledInside, Fared, GivenSucceeds, GivenAsReady, ChannelsLeft, Invoked, Here,
        VisitDone;
      VisitsCounted();
      ghost var visit;
      ok, visit := ExecuteComponent(component, start);
      MovesLost(old(Now()), Now());
      FaredVisit(world, old(Tally()), Tally(), visit, ok);
      VisitedOne(old(Left()), Left(), visit);
    }

    /** Visits components one after the other. */
    method ExecuteComponents(ids: seq<Id>, ghost start: Start) returns (ok: bool)
      requires Sane() && router.immediate == [] && Tracks(start, router.Stores(), router.ledger)
      modifies this`visits, this`tickCalls, this`log, this`steps, this`own, router, router.Buses(), engines.Values, states, store
      ensures Sane() && Moves(old(Now()), Now())
      ensures ok ==> router.immediate == [] && router.ledger.lost == old(router.ledger.lost)
      ensures ok ==> Tracks(start, router.Stores(), router.ledger)
      ensures Fared(world, old(Tally()), Tally(), ok)
      ensures ok ==> Performed(world, start, router.table, old(Left()), Left()) && VisitedFrom(old(Left()), Left(), ids)
      ensures ok ==> SettledInside(old(router.ledger), router.ledger, [], router.active)
    {
      hide Sane, Moves, Tracks, Performed, VisitedFrom, SettledInside, Fared;
      FaredNothing(world, Tally());
      SettledFirst(router.ledger, router.active);
      MovesNot(Now());
      TracksBound(start, router.Stores(), router.ledger);
      PerformedNothing(world, start, router.table, Left());
      VisitedNothing(Left());
      assert ids[..0] == [];
      for i := 0 to |ids|
        invariant Sane() && Moves(old(Now()), Now()) && router.immediate == [] && router.ledger.lost == old(router.ledger.lost)
        invariant Tracks(start, router.Stores(), router.ledger)
        invariant Performed(world, start, router.table, old(Left()), Left()) && VisitedFrom(old(Left()), Left(), ids[..i])
        invariant Fared(world, old(Tally()), Tally(), true)
        invariant SettledInside(old(router.ledger), router.ledger, [], router.active) && router.active == old(router.active)
      {
        ghost var earlier, left, tally := Now(), Left(), Tally();
        ok := ExecuteNext(ids[i], start);
        FaredChain(world, old(Tally()), tally, Tally(), ok);
        MovesTransitive(old(Now()), earlier, Now());
        if !ok {
          return;
        }
        PerformedChain(world, start, router.table, old(Left()), left, Left());
        VisitedChain(old(Left()), left, Left(), ids[..i], [ids[i]]);
        MovesActive(earlier, Now());
        SettledChain(old(router.ledger), earlier.ledger, router.ledger, router.active);
        assert ids[..i] + [ids[i]] == ids[..i + 1];
      }
      assert ids[..|ids|] == ids;
      ok := true;
    }

    // ----- regions

    /** Iterates the components of a composite region until the loop stops. */
    method IterateLoop(ids: seq<Id>, policy: LoopPolicy, ghost start: Start) returns (ok: bool, n: nat, reason: LoopStop)
      requires Sane() && router.immediate == [] && Tracks(start, router.Stores(), router.ledger)
      modifies this`visits, this`tickCalls, this`signals, this`log, this`steps, this`own, router, router.Buses(), engines.Values, states, store
      ensures Sane() && Moves(old(Now()), Now())
      ensures ok ==> router.immediate == [] && router.ledger.lost == old(router.ledger.lost)
      ensures Fared(world, old(Tally()), Tally(), ok)
      ensures ok ==> LoopEnded(policy, world.signal, old(signals), n, reason) && signals == old(signals) + n
      ensures ok ==> Performed(world, start, router.table, old(Left()), Left()) && VisitedFrom(old(Left()), Left(), Repeat(ids, n))
      ensures ok ==> SettledInside(old(router.ledger), router.ledger, [], router.active)
    {
      hide Sane, Moves, Tracks, Performed, VisitedFrom, LoopEnded, StillGoing, SettledInside, Fared;
      FaredNothing(world, Tally());
      SettledFirst(router.ledger, router.active);
      MovesNot(Now());
      TracksBound(start, router.Stores(), router.ledger);
      PerformedNothing(world, start, router.table, Left());
      VisitedNothing(Left());
      NotYetGoing(policy, world.signal, signals);
      n := 0;
      reason := MaxIterations;
      while n < policy.Max()
        invariant n <= policy.Max() && signals == old(signals) + n
        invariant Sane() && Moves(old(Now()), Now()) && router.immediate == [] && router.ledger.lost == old(router.ledger.lost)
        invariant Tracks(start, router.Stores(), router.ledger)
        invariant StillGoing(policy, world.signal, old(signals), n) && Fared(world, old(Tally()), Tally(), true)
        invariant SettledInside(old(router.ledger), router.ledger, [], router.active) && router.active == old(router.active)
        invariant Performed(world, start, router.table, old(Left()), Left()) && VisitedFrom(old(Left()), Left(), Repeat(ids, n))
      {
        if n > 0 && world.signal(signals).cancelled {
          CancelEnds(policy, world.signal, old(signals), n);
          return true, n, CancelledLoop;
        }
        IterationEnds(policy, world.signal, old(signals), n);
        ghost var earlier, left, tally := Now(), Left(), Tally();
        ok := ExecuteComponents(ids, start);
        FaredChain(world, old(Tally()), tally, Tally(), ok);
        MovesTransitive(old(Now()), earlier, Now());
        if !ok {
          return;
        }
        PerformedChain(world, start, router.table, old(Left()), left, Left());
        VisitedChain(old(Left()), left, Left(), Repeat(ids, n), ids);
        MovesActive(earlier, Now());
        SettledChain(old(router.ledger), earlier.ledger, router.ledger, router.active);
        var signal := world.signal(signals);
        SignalTaken(world, start, router.table, old(Left()), Left(), Repeat(ids, n) + ids);
        n, signals := n + 1, signals + 1;
        if policy.Converged(signal) {
          return true, n, Converging;
        }
        if policy.OverBudget(signal) {
          return true, n, BudgetOverrun;
        }
      }
      UsedUp(policy, world.signal, old(signals), n);
      ok := true;
    }

    /** Lets the outputs of the active region through, or drops them. */
    method CloseRegion(letThrough: bool) returns (ok: bool)
      requires Sane()
      modifies router, router.Buses()
      ensures Sane() && Ages(old(Now()), Now()) && router.ledger.staged == old(router.ledger.staged)
      ensures router.active == {} && router.composite == [] && router.immediate == old(router.immediate)
      ensures OutputsEnd(old(router.ledger), router.ledger, old(router.active), old(router.composite), letThrough, ok)
      ensures (ok <==> router.ledger.lost == old(router.ledger.lost)) && old(router.ledger.lost) <= router.ledger.lost
      ensures letThrough || ok
      ensures !letThrough && old(router.opening).Some? ==>
        Restored(old(router.opening).value, router.Stores(), router.ledger.overwritten, old(router.active), EdgesIn(router.table))
    {
      hide RuntimePublicationRouter.Valid, EnginesRight, GivenRight, ReadRight, C.ConfigSnapshotStore.Valid, S.Run, Carried, WellPlaced,
        Restored, Immediates,
        Deferreds, BusCommitted, SentMore, EdgesIn, Pending;
      router.WhatIsValid();
      CompositeCrosses(router.Stores(), router.active);
      ghost var l, outputs := router.ledger, router.composite;
      if letThrough {
        ok := router.CommitCompositeRegionOutputs(world.now(visits));
        LostMore(l, Immediates(outputs), ok);
        ReleaseAdvances(l, outputs, ok);
        assert router.Stores().composite == [];
      } else {
        router.DiscardCompositeRegionOutputs();
        DiscardAdvances(l, outputs);
        CarriedNothing(router.Sent(), l, router.ledger);
        assert router.Stores().composite == [];
        ok := true;
      }
      assert router.Stores().immediate == old(router.Stores()).immediate;
    }

    /** Runs a composite region: its outputs stay inside until the loop has stopped, and then go out together or
        not at all, as its policy says. A discard leaves the async queues as they were, but for evictions. */
    method RunCompositeRegion(region: RunRegion, ghost start: Start) returns (end: RegionEnd, n: nat, reason: LoopStop)
      requires Sane() && Quiet() && Tracks(start, router.Stores(), router.ledger)
      modifies this`visits, this`tickCalls, this`signals, this`log, this`steps, this`own, router, router.Buses(), engines.Values, states, store
      ensures Sane() && Ages(old(Now()), Now())
      ensures !end.Failed? ==> Quiet() && router.active == {} && router.ledger.lost == old(router.ledger.lost)
      ensures !end.Failed? ==> LoopEnded(region.policy, world.signal, old(signals), n, reason) && (end.Cancelled? <==> reason.CancelledLoop?)
      ensures !end.Failed? ==> !FailsRun(region.policy, reason)
      ensures !end.Failed? || LoopFailed(region, old(Left()), old(Tally()), n, reason) ==>
        OutputsTogether(old(router.ledger), router.ledger, Elements(region.components), LetsThrough(region.policy, reason))
      ensures (!end.Failed? || LoopFailed(region, old(Left()), old(Tally()), n, reason)) && !LetsThrough(region.policy, reason) ==>
        Restored(Opening(old(router.Stores()), |old(router.ledger.overwritten)|), router.Stores(), router.ledger.overwritten,
                 Elements(region.components), EdgesIn(router.table))
      ensures !end.Failed? ==> Performed(world, start, router.table, old(Left()), Left())
      ensures !end.Failed? ==> VisitedFrom(old(Left()), Left(), Repeat(region.components, n)) && signals == old(signals) + n
      ensures Fared(world, old(Tally()), Tally(), !end.Failed?) || (end.Failed? && LoopFailed(region, old(Left()), old(Tally()), n, reason))
    {
      hide RuntimePublicationRouter.Valid, EnginesRight, GivenRight, ReadRight, C.ConfigSnapshotStore.Valid, S.Run, Performed, VisitedFrom,
        Progress, Carried, LoopEnded, OutputsEnd, Restored, Advances, Tracks, EdgesIn, Fared;
      router.BeginCompositeRegion(region.components);
      NothingLostToo(old(router.ledger), router.ledger);
      assert router.Stores() == old(router.Stores()) && router.ledger == old(router.ledger);
      assert router.active == Elements(region.components);
      ghost var entry := Now();
      var ok: bool;
      ok, n, reason := IterateLoop(region.components, region.policy, start);
      ghost var tally := Tally();
      FaredEither(world, old(Tally()), tally);
      MovesAges(entry, Now());
      if !ok {
        return Failed, n, reason;
      }
      ghost var middle := Now();
      ghost var outputs := router.composite;
      if FailsRun(region.policy, reason) {
        ok := CloseRegion(false);
        FaredClosing(world, old(Tally()), tally, Tally(), ok);
        AgesTransitive(entry, middle, Now());
        return Failed, n, reason;
      }
      end := if reason.CancelledLoop? then Cancelled else Finished;
      ok := CloseRegion(LetsThrough(region.policy, reason));
      FaredClosing(world, old(Tally()), tally, Tally(), ok);
      AgesTransitive(entry, middle, Now());
      assert OutputsEnd(middle.ledger, router.ledger, Elements(region.components), outputs, LetsThrough(region.policy, reason), ok);
      if !ok {
        return Failed, n, reason;
      }
    }

    /** The loop of the region ended in a way that fails the run, though everything it did went well. */
    ghost predicate LoopFailed(region: RunRegion, a: Trail, tally: Score, n: nat, reason: LoopStop)
      reads `log, `steps, `signals, `tickCalls, router, store
    {
      && Fared(world, tally, Tally(), true) && signals == a.signals + n
      && LoopEnded(region.policy, world.signal, a.signals, n, reason) && FailsRun(region.policy, reason)
      && VisitedFrom(a, Left(), Repeat(region.components, n))
    }

    /** What makes a region fail: an execution that failed, a batch that was refused, or the policy of its loop. */
    ghost predicate Broke(region: RunRegion, a: Trail, tally: Score)
      reads `log, `steps, `signals, `tickCalls, router, store
    {
      Fared(world, tally, Tally(), false) || (Fared(world, tally, Tally(), true) && RegionFailed(world, region, a, Left()))
    }

    method RunRegion(region: RunRegion, ghost start: Start) returns (end: RegionEnd, ghost n: nat)
      requires Sane() && Quiet() && router.active == {} && Tracks(start, router.Stores(), router.ledger)
      modifies this`visits, this`tickCalls, this`signals, this`log, this`steps, this`own, router, router.Buses(), engines.Values, states, store
      ensures Sane() && Ages(old(Now()), Now())
      ensures !end.Failed? ==> Quiet() && router.active == {} && router.ledger.lost == old(router.ledger.lost)
      ensures !end.Failed? ==>
        RoundRight(world, region, old(signals), n, end.Cancelled?) && VisitedFrom(old(Left()), Left(), Repeat(region.components, n))
      ensures !end.Failed? ==> signals == old(signals) + SignalsTaken(region, n) && Fared(world, old(Tally()), Tally(), true)
      ensures end.Failed? ==> Broke(region, old(Left()), old(Tally()))
      ensures !end.Failed? ==> Performed(world, start, router.table, old(Left()), Left())
    {
      hide RuntimePublicationRouter.Valid, EnginesRight, GivenRight, ReadRight, C.ConfigSnapshotStore.Valid, S.Run, Performed, VisitedFrom, Progress,
        Carried, Advances, LoopEnded, OutputsTogether, WellPlaced, Tracks, Restored, EdgesIn, Fared;
      if region.isLoop {
        var rounds, reason;
        end, rounds, reason := RunCompositeRegion(region, start);
        n := rounds;
      } else {
        ghost var entry := Now();
        var ok := ExecuteComponents(region.components, start);
        MovesAges(entry, Now());
        router.WhatIsValid();
        end := if ok then Finished else Failed;
        n := 1;
        assert Repeat(region.components, 1) == region.components;
      }
    }

    // ----- iterations

    /** Between iterations only what the next epoch will commit is held. */
    ghost predicate Between()
      reads router
    {
      Quiet() && router.nextEpoch == [] && router.active == {} && router.ledger.lost == []
    }

    /** The trace so far is right, and the run stands at this place of the plan. */
    ghost predicate Tracing(iteration: nat, position: nat, base: nat, first: Trail)
      reads this, router, store
    {
      TracingAt(world, order, router.table, trace, iteration, position, base, first, router.ledger, Left())
    }

    /** Marks the start of a region. */
    ghost method MarkStart(iteration: nat, position: nat, base: nat, first: Trail)
      requires Tracing(iteration, position, base, first) && position < |order|
      requires router.Valid() && Quiet() && EpochOpen(base, router.ledger)
      modifies this`trace
      ensures |trace| == |old(trace)| + 1 && old(trace) <= trace
      ensures trace[|trace| - 1] == Mark(iteration, position, base, router.ledger, router.Stores(), Left())
      ensures TraceRight(trace) && TraceAt(trace, iteration, position + 1, base, router.ledger)
      ensures Follow(world, order, router.table, trace) && Begins(trace, first)
    {
      hide RuntimePublicationRouter.Valid, MarkRight, EpochOpen, TraceRight, TraceAt, Linked, Follow, Staging.Balanced, WellPlaced, AllAsync, Begins;
      var m := Mark(iteration, position, base, router.ledger, router.Stores(), Left());
      router.WhatIsValid();
      QuietMark(m, router.active);
      TraceGrows(trace, m);
      FollowGrows(world, order, router.table, trace, m);
      BeginsStill(trace, m, first);
      trace := trace + [m];
    }

    /** Marks the start of a region and runs it. */
    method RunNext(iteration: nat, position: nat, ghost base: nat, ghost first: Trail) returns (end: RegionEnd)
      requires Sane() && Quiet() && router.active == {} && EpochOpen(base, router.ledger)
      requires Tracing(iteration, position, base, first) && position < |order|
      modifies this`visits, this`tickCalls, this`signals, this`log, this`steps, this`own, this`trace, router, router.Buses(), engines.Values,
        states, store
      ensures Sane() && Ages(old(Now()), Now()) && old(trace) <= trace && |trace| == |old(trace)| + 1
      ensures TraceRight(trace) && Follow(world, order, router.table, trace) && Begins(trace, first)
      ensures MarkedAt(trace[|trace| - 1], iteration, position, old(Left()))
      ensures !end.Failed? ==> Quiet() && router.active == {} && router.ledger.lost == [] && EpochOpen(base, router.ledger)
      ensures !end.Failed? ==> Current(Left(), router.ledger, end.Cancelled?) && Fared(world, old(Tally()), Tally(), true)
      ensures end.Finished? ==> Tracing(iteration, position + 1, base, first)
      ensures end.Failed? ==> Broke(order[position], old(Left()), old(Tally()))
    {
      hide Sane, Performed, RoundRight, Repeat, VisitedFrom, Ages, EpochOpen, TraceRight, TraceAt, Follow, Linked, Tracks, Begins, Fared, Broke,
        SignalsTaken, Succeeded;
      NothingLost(base, router.ledger);
      ghost var earlier, tally := Now(), Tally();
      RouterSane();
      MarkStart(iteration, position, base, first);
      ghost var m := trace[|trace| - 1];
      TracksFirst(router.Stores(), router.ledger);
      ghost var n;
      end, n := RunRegion(order[position], Start(m.stores, |m.trail.staged|));
      StagedGrows(earlier, Now());
      TraceAges(trace, iteration, position + 1, base, earlier.ledger, router.ledger);
      if !end.Failed? {
        FaredWell(world, tally, Tally());
        RegionDone(world, order, router.table, m, n, Left(), router.ledger, end.Cancelled?) by { AgesAdvance(earlier, Now()); }
        EpochStays(base, earlier, Now());
      }
    }

    /** As before, seen from the configuration: what runs there stays in step with what is stored. */
    method RunNextInStep(iteration: nat, position: nat, ghost base: nat, ghost first: Trail) returns (end: RegionEnd)
      requires Sane() && Quiet() && router.active == {} && EpochOpen(base, router.ledger)
      requires Tracing(iteration, position, base, first) && position < |order| && C.InStep(store, components)
      modifies this`visits, this`tickCalls, this`signals, this`log, this`steps, this`own, this`trace, router, router.Buses(), engines.Values,
        states, store
      ensures Sane() && Ages(old(Now()), Now()) && old(trace) <= trace && |trace| == |old(trace)| + 1
      ensures TraceRight(trace) && Follow(world, order, router.table, trace) && Begins(trace, first) && C.InStep(store, components)
      ensures MarkedAt(trace[|trace| - 1], iteration, position, old(Left()))
      ensures !end.Failed? ==> Quiet() && router.active == {} && router.ledger.lost == [] && EpochOpen(base, router.ledger)
      ensures !end.Failed? ==> Current(Left(), router.ledger, end.Cancelled?) && Fared(world, old(Tally()), Tally(), true)
      ensures end.Finished? ==> Tracing(iteration, position + 1, base, first)
      ensures end.Failed? ==> Broke(order[position], old(Left()), old(Tally()))
    {
      hide Sane, Ages, EpochOpen, TraceRight, Follow, Begins, Tracing, Current, C.Lookup, RegionFailed, Succeeded;
      end := RunNext(iteration, position, base, first);
    }

    /** The loop of the last region to start failed the run. */
    ghost predicate LastFailed()
      reads this, router, store
    {
      && trace != [] && trace[|trace| - 1].position < |order|
      && RegionFailed(world, order[trace[|trace| - 1].position], trace[|trace| - 1].trail, Left())
    }

    /** The last region to start is the one that broke. */
    ghost predicate LastBroke(tally: Score)
      reads this, router, store
    {
      && trace != [] && trace[|trace| - 1].position < |order|
      && (Fared(world, tally, Tally(), false) || (Fared(world, tally, Tally(), true) && LastFailed()))
    }

    lemma BrokeLast(a: Trail, before: Score, tally: Score)
      requires trace != [] && trace[|trace| - 1].position < |order| && trace[|trace| - 1].trail == a
      requires Fared(world, before, tally, true) && Broke(order[trace[|trace| - 1].position], a, tally)
      ensures LastBroke(before)
    {
      hide RegionFailed, Fared;
      if Fared(world, tally, Tally(), false) {
        FaredChain(world, before, tally, Tally(), false);
      } else {
        FaredChain(world, before, tally, Tally(), true);
      }
    }

    /** Runs the regions of one epoch in plan order. */
    method RunRegions(iteration: nat, ghost base: nat, ghost first: Trail) returns (end: RegionEnd)
      requires Sane() && Quiet() && router.active == {} && EpochOpen(base, router.ledger)
      requires Tracing(iteration, 0, base, first) && C.InStep(store, components)
      modifies this`visits, this`tickCalls, this`signals, this`log, this`steps, this`own, this`trace, router, router.Buses(), engines.Values,
        states, store
      ensures Sane() && Ages(old(Now()), Now())
      ensures old(trace) <= trace && |trace| <= |old(trace)| + |order|
      ensures TraceRight(trace) && Follow(world, order, router.table, trace) && Begins(trace, first)
      ensures C.InStep(store, components) && MarkedSince(old(trace), trace, iteration, old(Left()))
      ensures !end.Failed? ==> Fared(world, old(Tally()), Tally(), true) && router.ledger.lost == []
      ensures end.Failed? ==> LastBroke(old(Tally()))
      ensures end.Cancelled? ==> trace != [] && Current(Left(), router.ledger, true)
      ensures end.Finished? ==> Quiet() && router.active == {} && |trace| == |old(trace)| + |order|
      ensures end.Finished? ==> Tracing(iteration, |order|, base, first)
    {
      hide Sane, Ages, EpochOpen, TraceRight, TraceAt, Follow, Linked, Begins, Current, C.InStep, Fared, Broke, LastBroke;
      AgesNot(Now());
      FaredNothing(world, Tally());
      NothingLost(base, router.ledger);
      for position := 0 to |order|
        invariant Sane() && Quiet() && router.active == {} && EpochOpen(base, router.ledger) && router.ledger.lost == []
        invariant Ages(old(Now()), Now()) && C.InStep(store, components)
        invariant Tracing(iteration, position, base, first) && Fared(world, old(Tally()), Tally(), true)
        invariant |trace| == |old(trace)| + position && MarkedSince(old(trace), trace, iteration, old(Left()))
        invariant old(log) <= log && (position == 0 ==> Left() == old(Left()))
      {
        ghost var earlier, left, tally := Now(), Left(), Tally();
        end := RunNextInStep(iteration, position, base, first);
        AgesTransitive(old(Now()), earlier, Now());
        if end.Failed? {
          BrokeLast(left, old(Tally()), tally);
          return;
        }
        FaredGrows(world, tally, Tally());
        FaredChain(world, old(Tally()), tally, Tally(), true);
        if end.Cancelled? {
          return;
        }
      }
      end := Finished;
    }

    /** Between two iterations: the plan has been run through to its end. */
    ghost predicate Resting(iteration: nat, first: Trail)
      reads this, router, store
    {
      RestingAt(world, order, router.table, trace, iteration, first, router.ledger, Left())
    }

    /** The start of an iteration: staged state becomes readable, the config transaction is applied, and what was
        deferred before is committed. */
    method BeginIteration() returns (ok: bool)
      requires Sane() && Between() && C.NoneShared(components) && C.InStep(store, components)
      modifies this`steps, router, router.Buses(), states, store, components.Values
      ensures Sane() && Carried(old(router.Sent()), router.Sent(), old(router.ledger), router.ledger)
      ensures router.ledger.staged == old(router.ledger.staged)
      ensures ok <==> old(C.AllApply(store.pending, components)) && router.ledger.committed == old(router.ledger.committed) + old(router.ready)
      ensures ok ==> Quiet() && router.nextEpoch == [] && router.active == {} && EpochOpen(|router.ledger.staged|, router.ledger)
      ensures ok ==> C.InStep(store, components) && Left() == Crossed(old(Left())) && Opens(old(router.ledger), router.ledger)
      ensures C.KeepsStored(store.configs, components) ==> C.InStep(store, components)
      ensures ok ==> router.ledger.lost == old(router.ledger.lost)
      ensures !ok ==> router.ledger.lost != old(router.ledger.lost) || (router.ledger == old(router.ledger) && Refused(old(Left())))
    {
      hide RuntimePublicationRouter.Valid, C.ConfigSnapshotStore.Valid, EnginesRight, GivenRight, ReadRight, S.Run, EpochOpen, C.InStep, C.NoneShared,
        C.AllApply, C.Overlaid, Carried, Undone;
      CarriedNothing(router.Sent(), router.ledger, router.ledger);
      ok := CommitStores();
      if ok {
        ok := OpenEpoch();
      }
    }

    /** The stores of state and configuration move on. */
    method CommitStores() returns (ok: bool)
      requires states.entries == S.Run(steps) && store.Valid() && C.NoneShared(components) && C.InStep(store, components)
      modifies this`steps, states, store, components.Values
      ensures states.entries == S.Run(steps) && store.Valid() && steps == old(steps) + [S.Commit]
      ensures ok <==> old(C.AllApply(store.pending, components))
      ensures store.pending == map[] && (C.KeepsStored(store.configs, components) ==> C.InStep(store, components))
      ensures ok ==> C.InStep(store, components) && store.configs == C.Overlaid(old(store.configs), old(store.pending))
      ensures !ok ==> store.configs == old(store.configs) && Undone(old(store.pending))
    {
      hide C.ConfigSnapshotStore.Valid, S.Run, S.After, C.InStep, C.NoneShared, C.AllApply, C.Overlaid, C.Undone;
      var written := states.CommitEpochBoundary();
      StepTaken(steps, S.Commit);
      steps := steps + [S.Commit];
      var errors;
      ok, errors := C.ApplyConfigTransaction(store, components);
    }

    /** A transaction with these updates failed: none of them is in force, and the components run with their stored
        configurations, but for those that refused to take them back. */
    ghost predicate Undone(updates: C.Configs)
      reads store, components.Values
    {
      exists attempts, errors {:trigger C.Undone(updates, attempts, store.configs, components, errors)} ::
        C.Undone(updates, attempts, store.configs, components, errors)
    }

    /** What stopped the run before an iteration could begin: its transaction failed. */
    ghost predicate Refused(was: Trail)
      reads `log, `steps, `signals, router, store, components.Values
    {
      Left() == was.(steps := was.steps + [S.Commit], pending := map[]) && Undone(was.pending)
    }

    /** Commits what was deferred before. */
    method OpenEpoch() returns (ok: bool)
      requires router.Valid() && Between()
      modifies router, router.Buses()
      ensures router.Valid() && Carried(old(router.Sent()), router.Sent(), old(router.ledger), router.ledger)
      ensures router.ledger.staged == old(router.ledger.staged)
      ensures ok <==> router.ledger.committed == old(router.ledger.committed) + old(router.ready)
      ensures ok <==> router.ledger.lost == old(router.ledger.lost)
      ensures ok ==> Quiet() && router.nextEpoch == [] && router.active == {} && EpochOpen(|router.ledger.staged|, router.ledger)
      ensures ok ==> Opens(old(router.ledger), router.ledger)
      ensures router.bus != null ==> router.bus.handed == old(router.bus.handed)
    {
      hide RuntimePublicationRouter.Valid, WellPlaced, Staging.Balanced, AllAsync, EpochOpen, BusCommitted, AllAdvanced, Carried, Pending,
        OfChannel;
      ghost var st, l, ready := router.Stores(), router.ledger, router.ready;
      router.WhatIsValid();
      ok := router.BeginEpoch(world.now(visits));
      BatchOpens(st, router.active, l);
      router.WhatIsValid();
      BatchIn(l, ready, ok);
      LostMore(l, ready, ok);
      if ok {
        assert router.Stores() == Stages([], [], [], []);
        EpochOpens(router.Stores(), router.ledger);
      }
    }

    /** What was deferred is handed over to the next epoch. */
    method EndEpoch()
      requires Sane()
      modifies router
      ensures Sane() && Now() == old(Now()) && Left() == old(Left())
      ensures router.immediate == old(router.immediate) && router.composite == old(router.composite) && router.nextEpoch == []
    {
      hide RuntimePublicationRouter.Valid, C.ConfigSnapshotStore.Valid, EnginesRight, GivenRight, ReadRight, S.Run, Pending;
      router.EndEpoch();
      assert router.Stores() == old(Ended(router.Stores()));
    }

    /** What can go wrong from this visit on: a batch is refused, an execution fails, or a loop fails the run. */
    ghost predicate WentWrong(from: nat)
      reads this, router, store
    {
      router.ledger.lost != [] || !Succeeded(world, log, from) || LastFailed()
    }

    lemma Graded(tally: Score, failed: bool)
      requires if failed then LastBroke(tally) else Fared(world, tally, Tally(), true)
      requires tally.lost == []
      ensures tally.log <= log
      ensures !failed ==> Succeeded(world, log, |tally.log|) && tickCalls == tally.ticks + Invocations(log[|tally.log|..])
      ensures failed ==> WentWrong(|tally.log|)
    {
    }

    /** One iteration: the state and configuration of the new epoch, then what earlier iterations deferred, then
        the regions, and last the hand-over to the next epoch. */
    method RunIteration(iteration: nat, ghost first: Trail) returns (end: RegionEnd)
      requires Sane() && Between() && C.NoneShared(components) && C.InStep(store, components) && Resting(iteration, first)
      modifies this, router, router.Buses(), engines.Values, states, store, components.Values
      ensures Sane() && Carried(old(router.Sent()), router.Sent(), old(router.ledger), router.ledger)
      ensures TraceRight(trace) && Follow(world, order, router.table, trace) && Begins(trace, first)
      ensures old(trace) <= trace && |trace| <= |old(trace)| + |order|
      ensures old(log) <= log && MarkedSince(old(trace), trace, iteration, Crossed(old(Left())))
      ensures C.KeepsStored(store.configs, components) ==> C.InStep(store, components)
      ensures !end.Failed? ==> C.InStep(store, components) && OnePass(old(router.ledger), router.ledger)
      ensures !end.Failed? ==> Succeeded(world, log, |old(log)|) && router.ledger.lost == []
      ensures !end.Failed? ==> tickCalls == old(tickCalls) + Invocations(log[|old(log)|..])
      ensures end.Cancelled? ==> trace != [] && Current(Left(), router.ledger, true)
      ensures end.Finished? ==> Between() && |trace| == |old(trace)| + |order| && Resting(iteration + 1, first)
      ensures end.Failed? ==> WentWrong(|old(log)|) || (trace == old(trace) && router.ledger == old(router.ledger) && Refused(old(Left())))
    {
      hide Sane, Ages, Carried, EpochOpen, TraceRight, TraceAt, Follow, Linked, Begins, C.InStep, C.NoneShared, C.AllApply, C.Overlaid, Fared,
        Undone, Succeeded, LastBroke, LastFailed;
      var ok := BeginIteration();
      if !ok {
        return Failed;
      }
      ghost var entry, l, tally := Now(), router.ledger, Tally();
      Crossing(world, order, router.table, trace, iteration, first, old(router.ledger), l, old(Left()));
      end := RunRegions(iteration, |l.staged|, first);
      Graded(tally, end.Failed?);
      CarriedOn(old(router.Sent()), old(router.ledger), entry, Now());
      PassOn(old(router.ledger), entry, Now());
      if end.Finished? {
        Completed(world, order, router.table, trace, iteration, |l.staged|, first, router.ledger, Left());
        EndEpoch();
      }
    }

    /** One iteration, and whether it executed nothing. */
    method RunPass(completed: nat, iterations: nat, untilIdle: bool, ghost starts: seq<nat>, ghost was: Trail, ghost first: Trail)
      returns (end: RegionEnd, idle: bool, ghost begun: seq<nat>)
      requires Sane() && Between() && C.NoneShared(components) && C.InStep(store, components) && Resting(completed, first)
      requires Going(world, starts, trace, log, completed, untilIdle, |was.log|) && was.log <= log && (completed == 0 ==> Left() == was)
      requires completed < iterations && !world.stops(visits)
      modifies this, router, router.Buses(), engines.Values, states, store, components.Values
      ensures Sane() && Carried(old(router.Sent()), router.Sent(), old(router.ledger), router.ledger)
      ensures TraceRight(trace) && Follow(world, order, router.table, trace) && Begins(trace, first)
      ensures old(trace) <= trace && |trace| <= |old(trace)| + |order| && |begun| == completed + 1 && was.log <= log
      ensures C.KeepsStored(store.configs, components) ==> C.InStep(store, components)
      ensures !end.Failed? ==> C.InStep(store, components)
      ensures end.Cancelled? ==> trace != [] && Current(Left(), router.ledger, true)
      ensures end.Finished? ==> Between() && |trace| == |old(trace)| + |order| && Resting(completed + 1, first)
      ensures !end.Finished? ==> StoppedFor(if end.Failed? then RunError else StopRequested, completed, begun, iterations, untilIdle, was)
      ensures end.Finished? && untilIdle && idle ==> StoppedFor(Idle, completed + 1, begun, iterations, untilIdle, was)
      ensures end.Finished? && !(untilIdle && idle) ==> Going(world, begun, trace, log, completed + 1, untilIdle, |was.log|)
    {
      hide Sane, Carried, TraceRight, TraceAt, Follow, Linked, Begins, C.InStep, C.NoneShared, Going, StartsRight, Busy, MarkedSince, Crossed,
        StoppedFor, Undone, Refused, WentWrong, Succeeded, C.KeepsStored, OnePass, RestingAt, Current, RefusedAfter;
      VisitsCounted();
      var before := tickCalls;
      ghost var marks, visited, l, left := trace, log, router.ledger, Left();
      begun := starts + [|log|];
      CrossedLog(left);
      end := RunIteration(completed, first);
      Started(world, starts, marks, visited, trace, log, completed, untilIdle, |was.log|, Crossed(left));
      idle := tickCalls == before;
      if end.Failed? {
        BrokeOff(marks, l, left, was, completed, first);
        EndedInside(true, completed, begun, iterations, untilIdle, was);
      } else {
        SucceededOn(world, visited, log, |was.log|);
        if end.Cancelled? {
          EndedInside(false, completed, begun, iterations, untilIdle, was);
        } else {
          BusyIff(starts, visited, log);
          if untilIdle && idle {
            EndedIdle(completed + 1, begun, iterations, was);
          } else {
            GoesOn(world, begun, trace, log, completed + 1, untilIdle, |was.log|);
          }
        }
      }
    }

    /** Iteration after iteration, until they are used up or something stops them. */
    method Iterate(iterations: nat, untilIdle: bool) returns (reason: StopReason, completed: nat, ghost starts: seq<nat>)
      requires Sane() && Between() && C.NoneShared(components) && C.InStep(store, components) && trace == []
      modifies this, router, router.Buses(), engines.Values, states, store, components.Values
      ensures Sane() && Carried(old(router.Sent()), router.Sent(), old(router.ledger), router.ledger)
      ensures TraceRight(trace) && Follow(world, order, router.table, trace) && Begins(trace, Crossed(old(Left())))
      ensures completed * |order| <= |trace| <= completed * |order| + |order|
      ensures reason.TickBound? || reason.Idle? ==> Between() && |trace| == completed * |order|
      ensures StoppedFor(reason, completed, starts, iterations, untilIdle, old(Left()))
      ensures !reason.RunError? ==> C.InStep(store, components) && (trace != [] ==> Current(Left(), router.ledger, |starts| > completed))
      ensures C.KeepsStored(store.configs, components) ==> C.InStep(store, components)
    {
      hide Sane, Carried, TraceRight, TraceAt, Follow, Linked, Begins, C.InStep, C.NoneShared, Going, Crossed, RestingAt, Current,
        StoppedFor, Succeeded, C.KeepsStored;
      completed, starts := 0, [];
      ghost var first, was := Crossed(Left()), Left();
      CarriedNothing(router.Sent(), router.ledger, router.ledger);
      NoTrace(world, order, router.table, router.ledger, Left());
      GoingFirst(world, log, untilIdle);
      while completed < iterations
        invariant completed <= iterations && Sane() && Between() && C.InStep(store, components)
        invariant Carried(old(router.Sent()), router.Sent(), old(router.ledger), router.ledger)
        invariant Resting(completed, first) && |trace| == completed * |order| && |starts| == completed
        invariant Going(world, starts, trace, log, completed, untilIdle, |was.log|) && was.log <= log && (completed == 0 ==> Left() == was)
      {
        VisitsCounted();
        if world.stops(visits) {
          EndedBetween(StopRequested, completed, starts, iterations, untilIdle, was);
          RestingCurrent(completed, first);
          return StopRequested, completed, starts;
        }
        ghost var sent, l := router.Sent(), router.ledger;
        var end, idle;
        end, idle, starts := RunPass(completed, iterations, untilIdle, starts, was, first);
        CarriedChain(old(router.Sent()), sent, router.Sent(), old(router.ledger), l, router.ledger);
        if !end.Finished? {
          return if end.Failed? then RunError else StopRequested, completed, starts;
        }
        assert (completed + 1) * |order| == completed * |order| + |order|;
        completed := completed + 1;
        if untilIdle && idle {
          RestingCurrent(completed, first);
          return Idle, completed, starts;
        }
      }
      EndedBetween(TickBound, completed, starts, iterations, untilIdle, was);
      RestingCurrent(completed, first);
      reason := TickBound;
    }

    lemma RestingCurrent(iteration: nat, first: Trail)
      requires Resting(iteration, first)
      ensures TraceRight(trace) && Follow(world, order, router.table, trace) && Begins(trace, first)
      ensures trace != [] ==> Current(Left(), router.ledger, false)
    {
      hide TraceRight, Follow, Begins, Linked;
    }

    /** The whole run. Whenever a region started, everything it could be owed had been committed; from mark to mark
        exactly the regions of the plan ran, and left behind exactly what their components did; and what was
        committed is what was sent to the channels. */
    method Run(iterations: nat, untilIdle: bool) returns (reason: StopReason, completed: nat, ghost starts: seq<nat>)
      requires Sane() && Between() && C.NoneShared(components) && C.InStep(store, components) && trace == []
      modifies this, router, router.Buses(), engines.Values, states, store, components.Values
      ensures Sane() && Carried(old(router.Sent()), router.Sent(), old(router.ledger), router.ledger)
      ensures TraceRight(trace) && Follow(world, order, router.table, trace) && Begins(trace, Crossed(old(Left())))
      ensures DeferredRight(trace) && Conserving()
      ensures !reason.RunError? && trace != [] ==> NotYet(trace[|trace| - 1].base, router.ledger)
      ensures completed * |order| <= |trace| <= completed * |order| + |order|
      ensures reason.TickBound? || reason.Idle? ==> Between() && |trace| == completed * |order|
      ensures StoppedFor(reason, completed, starts, iterations, untilIdle, old(Left()))
      ensures !reason.RunError? ==> C.InStep(store, components) && (trace != [] ==> Current(Left(), router.ledger, |starts| > completed))
      ensures C.KeepsStored(store.configs, components) ==> C.InStep(store, components)
    {
      hide Sane, Carried, TraceRight, Follow, Begins, C.InStep, C.NoneShared, Crossed, Current, StoppedFor, C.KeepsStored, DeferredRight,
        NotYet, Conserving;
      reason, completed, starts := Iterate(iterations, untilIdle);
      Concluded(router.ledger, reason.RunError?, |starts| > completed);
    }

    /** How a run ended, and why. No iteration started under a stop request; under a stop when idle, every iteration but
        one that ended the run executed something. The run went through all its iterations; or a stop was requested
        before an iteration or cancelled the loop of its last region; or an iteration executed nothing; or something
        went wrong. */
    ghost predicate StoppedFor(reason: StopReason, completed: nat, starts: seq<nat>, iterations: nat, untilIdle: bool, was: Trail)
      reads this, router, store, components.Values
    {
      && StartsRight(world, starts, trace, log) && was.log <= log
      && completed <= |starts| <= completed + 1 && completed <= iterations
      && (untilIdle ==> forall i :: 0 <= i < completed && (i + 1 < completed || !reason.Idle?) ==> Busy(starts, log, i))
      && (reason.RunError? || (Succeeded(world, log, |was.log|) && router.ledger.lost == []))
      && match reason
         case TickBound => completed == iterations && |starts| == completed
         case StopRequested => completed < iterations &&
           if |starts| == completed then world.stops(|log|) else trace != [] && Current(Left(), router.ledger, true)
         case Idle => untilIdle && 0 < completed == |starts| && !Busy(starts, log, completed - 1)
         case RunError => completed < iterations && |starts| == completed + 1 && (WentWrong(|was.log|) || RefusedAfter(was, completed))
    }

    /** The transaction of an iteration failed, with the updates that were waiting after the iteration before. */
    ghost predicate RefusedAfter(first: Trail, completed: nat)
      reads this, router, store, components.Values
    {
      exists was: Trail :: Refused(was) && (completed == 0 ==> was == first) && (trace != [] ==> Current(was, router.ledger, false))
    }

    lemma EndedBetween(reason: StopReason, completed: nat, starts: seq<nat>, iterations: nat, untilIdle: bool, was: Trail)
      requires Going(world, starts, trace, log, completed, untilIdle, |was.log|) && was.log <= log
      requires router.ledger.lost == [] && completed <= iterations
      requires if reason.TickBound? then completed == iterations else reason.StopRequested? && completed < iterations && world.stops(|log|)
      ensures StoppedFor(reason, completed, starts, iterations, untilIdle, was)
    {
      hide StartsRight, Succeeded, Busy;
    }

    lemma EndedIdle(completed: nat, starts: seq<nat>, iterations: nat, was: Trail)
      requires StartsRight(world, starts, trace, log) && was.log <= log && Succeeded(world, log, |was.log|)
      requires router.ledger.lost == [] && 0 < completed == |starts| <= iterations && !Busy(starts, log, completed - 1)
      requires forall i :: 0 <= i < completed - 1 ==> Busy(starts, log, i)
      ensures StoppedFor(Idle, completed, starts, iterations, true, was)
    {
      hide StartsRight, Succeeded, Busy;
    }

    lemma EndedInside(failed: bool, completed: nat, starts: seq<nat>, iterations: nat, untilIdle: bool, was: Trail)
      requires StartsRight(world, starts, trace, log) && was.log <= log && |starts| == completed + 1 && completed < iterations
      requires untilIdle ==> forall i :: 0 <= i < completed ==> Busy(starts, log, i)
      requires failed ==> WentWrong(|was.log|) || RefusedAfter(was, completed)
      requires !failed ==> Succeeded(world, log, |was.log|) && router.ledger.lost == [] && trace != [] && Current(Left(), router.ledger, true)
      ensures StoppedFor(if failed then RunError else StopRequested, completed, starts, iterations, untilIdle, was)
    {
      hide StartsRight, Succeeded, Busy, WentWrong, RefusedAfter, Current;
    }

    lemma BrokeOff(marks: seq<Mark>, l: Ledger, left: Trail, was: Trail, completed: nat, first: Trail)
      requires RestingAt(world, order, router.table, marks, completed, first, l, left) && (completed == 0 ==> left == was)
      requires WentWrong(|left.log|) || (trace == marks && router.ledger == l && Refused(left))
      requires was.log <= left.log
      ensures WentWrong(|was.log|) || RefusedAfter(was, completed)
    {
      hide Undone, GivenSucceeds, TraceRight, TraceAt, Follow, Begins, Linked, LastFailed;
      if !WentWrong(|left.log|) && trace != [] {
        assert AtEnd(world, order, router.table, trace[|trace| - 1], completed, left, l);
      }
    }

    /** What the trace says of deferred publications, and so far of those since the last opening. */
    lemma Concluded(l: Ledger, failed: bool, stopped: bool)
      requires TraceRight(trace) && Follow(world, order, router.table, trace) && Sane() && l == router.ledger
      requires !failed && trace != [] ==> Current(Left(), l, stopped)
      ensures DeferredRight(trace) && Conserving()
      ensures !failed && trace != [] ==> NotYet(trace[|trace| - 1].base, l)
    {
      hide Sane, RuntimePublicationRouter.Valid, TraceRight, Follow, RegionRan, Staging.Balanced, DeferredRight, NotYet, Conserving;
      AllConserved();
      FollowPasses(world, order, router.table, trace);
      DeferredArrivesNext(trace);
      if !failed && trace != [] {
        RouterSane();
        router.WhatIsValid();
        LastNotYet(trace, router.Stores(), l, trace[|trace| - 1].position + 1);
      }
    }

    /** The region of the last mark has run. */
    ghost predicate Current(now: Trail, l: Ledger, stopped: bool)
      requires trace != []
      reads `trace
    {
      var last := trace[|trace| - 1];
      Linked(world, order, router.table, last, last.iteration, last.position + 1, now, l, stopped)
    }

    lemma RouterSane()
      requires Sane()
      ensures router.Valid() && store.Valid()
    {
    }
  }

  /** Where the iterations started, counted in visits: none under a stop request; and every region that started did so in
      its iteration, the first one at its start. */
  ghost predicate StartsRight(world: World, starts: seq<nat>, trace: seq<Mark>, log: seq<Visit>) {
    && (forall i :: 0 <= i < |starts| ==> starts[i] <= |log| && !world.stops(starts[i]))
    && (forall i, j :: 0 <= i <= j < |starts| ==> starts[i] <= starts[j])
    && forall k :: 0 <= k < |trace| ==>
        && trace[k].iteration < |starts| && starts[trace[k].iteration] <= |trace[k].trail.log|
        && (trace[k].position == 0 ==> starts[trace[k].iteration] == |trace[k].trail.log|)
  }

  /** The i-th iteration executed something. */
  ghost predicate Busy(starts: seq<nat>, log: seq<Visit>, i: nat)
    requires i < |starts|
  {
    exists v :: starts[i] <= v < (if i + 1 < |starts| then starts[i + 1] else |log|) && v < |log| && log[v].given != []
  }

  ghost predicate Going(world: World, starts: seq<nat>, trace: seq<Mark>, log: seq<Visit>, completed: nat, untilIdle: bool, from: nat) {
    && StartsRight(world, starts, trace, log) && |starts| == completed && from <= |log| && Succeeded(world, log, from)
    && (untilIdle ==> forall i :: 0 <= i < completed ==> Busy(starts, log, i))
  }

  lemma GoingFirst(world: World, log: seq<Visit>, untilIdle: bool)
    ensures Going(world, [], [], log, 0, untilIdle, |log|)
  {
  }

  lemma Started(world: World, starts: seq<nat>, trace: seq<Mark>, log: seq<Visit>, trace': seq<Mark>, log': seq<Visit>, completed: nat,
                untilIdle: bool, from: nat, a: Trail)
    requires Going(world, starts, trace, log, completed, untilIdle, from) && !world.stops(|log|) && log <= log'
    requires MarkedSince(trace, trace', completed, a) && a.log == log
    ensures StartsRight(world, starts + [|log|], trace', log') && Succeeded(world, log, from) && |starts| == completed
    ensures untilIdle ==> forall i :: 0 <= i < completed ==> Busy(starts + [|log|], log', i)
  {
    hide Succeeded;
    var begun := starts + [|log|];
    forall k | 0 <= k < |trace'|
      ensures trace'[k].iteration < |begun| && begun[trace'[k].iteration] <= |trace'[k].trail.log|
      ensures trace'[k].position == 0 ==> begun[trace'[k].iteration] == |trace'[k].trail.log|
    {
      if k < |trace| {
        assert trace'[k] == trace[k];
      }
    }
    forall i | 0 <= i < completed && untilIdle ensures Busy(begun, log', i) {
      assert Busy(starts, log, i);
      var v :| starts[i] <= v < (if i + 1 < |starts| then starts[i + 1] else |log|) && v < |log| && log[v].given != [];
      assert log'[v].given != [];
    }
  }

  lemma SucceededOn(world: World, log: seq<Visit>, log': seq<Visit>, from: nat)
    requires log <= log' && Succeeded(world, log', |log|) && Succeeded(world, log, from)
    ensures Succeeded(world, log', from)
  {
    hide GivenSucceeds;
    forall v | from <= v < |log'| ensures GivenSucceeds(world, v, log'[v].given) {
      if v < |log| {
        assert log'[v] == log[v];
      }
    }
  }

  /** Counting invocations tells whether an iteration executed something. */
  lemma BusyIff(starts: seq<nat>, log: seq<Visit>, log': seq<Visit>)
    requires log <= log'
    ensures Busy(starts + [|log|], log', |starts|) <==> Invocations(log'[|log|..]) != 0
  {
    var more := log'[|log|..];
    NoInvocations(more);
    if k :| 0 <= k < |more| && more[k].given != [] {
      assert log'[|log| + k].given != [];
    }
    forall v | |log| <= v < |log'| ensures log'[v] == more[v - |log|] {
    }
  }

  lemma CrossedLog(t: Trail)
    ensures Crossed(t).log == t.log
  {
  }

  lemma GoesOn(world: World, starts: seq<nat>, trace: seq<Mark>, log: seq<Visit>, completed: nat, untilIdle: bool, from: nat)
    requires StartsRight(world, starts, trace, log) && |starts| == completed && from <= |log| && Succeeded(world, log, from)
    requires untilIdle ==> forall i :: 0 <= i < completed ==> Busy(starts, log, i)
    ensures Going(world, starts, trace, log, completed, untilIdle, from)
  {
  }

  ghost predicate TracingAt(world: World, order: seq<RunRegion>, table: RoutingTable, trace: seq<Mark>, iteration: nat, position: nat,
                            base: nat, first: Trail, l: Ledger, now: Trail)
  {
    && TraceRight(trace) && TraceAt(trace, iteration, position, base, l)
    && Follow(world, order, table, trace) && Begins(trace, first)
    && (position == 0 ==> base == |l.staged|)
    && (trace != [] ==> Linked(world, order, table, trace[|trace| - 1], iteration, position, now, l, false))
    && (trace == [] && order != [] ==> iteration == 0 == position && now == first)
  }

  ghost predicate RestingAt(world: World, order: seq<RunRegion>, table: RoutingTable, trace: seq<Mark>, iteration: nat, first: Trail,
                            l: Ledger, now: Trail)
  {
    && TraceRight(trace) && TraceAt(trace, iteration, 0, |l.staged|, l)
    && Follow(world, order, table, trace) && Begins(trace, first)
    && (trace != [] ==> AtEnd(world, order, table, trace[|trace| - 1], iteration, now, l))
    && (trace == [] && order != [] ==> iteration == 0 && Crossed(now) == first)
  }

  /** The last region of the iteration before has run. */
  ghost predicate AtEnd(world: World, order: seq<RunRegion>, table: RoutingTable, m: Mark, iteration: nat, now: Trail, l: Ledger) {
    m.iteration + 1 == iteration && m.position + 1 == |order| && Linked(world, order, table, m, m.iteration, m.position + 1, now, l, false)
  }

  lemma Crossing(world: World, order: seq<RunRegion>, table: RoutingTable, trace: seq<Mark>, iteration: nat, first: Trail,
                 l: Ledger, l': Ledger, now: Trail)
    requires RestingAt(world, order, table, trace, iteration, first, l, now) && Opens(l, l')
    ensures TracingAt(world, order, table, trace, iteration, 0, |l'.staged|, first, l', Crossed(now))
  {
    hide TraceRight, Follow, Begins, RegionRan, Crossed;
  }

  lemma Completed(world: World, order: seq<RunRegion>, table: RoutingTable, trace: seq<Mark>, iteration: nat, base: nat, first: Trail,
                  l: Ledger, now: Trail)
    requires TracingAt(world, order, table, trace, iteration, |order|, base, first, l, now)
    ensures RestingAt(world, order, table, trace, iteration + 1, first, l, now)
  {
    hide TraceRight, TraceAt, Begins, RegionRan, Crossed;
    TraceAges(trace, iteration, |order|, base, l, l);
    if trace != [] {
      assert trace[|trace| - 1].position < |order|;
    }
  }

  lemma NoTrace(world: World, order: seq<RunRegion>, table: RoutingTable, l: Ledger, now: Trail)
    ensures RestingAt(world, order, table, [], 0, Crossed(now), l, now)
  {
    hide Linked;
  }

  lemma BatchOpens(st: Stages, active: set<Id>, l: Ledger)
    requires WellPlaced(st, active)
    ensures Opens(l, Committed(l, st.ready, true))
  {
    var l' := Committed(l, st.ready, true);
    forall i | |l.committed| <= i < |l'.committed| ensures l'.committed[i].edge.kind != Immediate {
      assert l'.committed[i] == st.ready[i - |l.committed|] && l'.committed[i] in st.nextEpoch + st.ready;
    }
  }

  lemma BatchIn(l: Ledger, batch: seq<Routed>, accepted: bool)
    requires batch == [] ==> accepted
    ensures accepted <==> Committed(l, batch, accepted).committed == l.committed + batch
  {
  }

  lemma PassOn(l: Ledger, a: Moment, b: Moment)
    requires Opens(l, a.ledger) && Ages(a, b)
    ensures OnePass(l, b.ledger)
  {
    hide Opens, Advances;
  }

  lemma CarriedOn(sent: Histories, l: Ledger, a: Moment, b: Moment)
    requires Carried(sent, a.sent, l, a.ledger) && Ages(a, b)
    ensures Carried(sent, b.sent, l, b.ledger)
  {
    hide Carried, Advances;
    CarriedChain(sent, a.sent, b.sent, l, a.ledger, b.ledger);
  }

  lemma AgesNot(a: Moment)
    ensures Ages(a, a)
  {
    MovesNot(a);
    MovesAges(a, a);
  }

  lemma StagedGrows(a: Moment, b: Moment)
    requires Ages(a, b)
    ensures a.ledger.staged <= b.ledger.staged
  {
  }

  lemma AgesAdvance(a: Moment, b: Moment)
    requires Ages(a, b)
    ensures Advances(a.ledger, b.ledger)
  {
  }

  lemma EpochStays(base: nat, a: Moment, b: Moment)
    requires EpochOpen(base, a.ledger) && Ages(a, b) && b.ledger.lost == []
    ensures EpochOpen(base, b.ledger)
  {
    hide EpochOpen;
    EpochStaysOpen(base, a.ledger, b.ledger);
  }

  lemma NothingLost(base: nat, l: Ledger)
    requires EpochOpen(base, l)
    ensures l.lost == []
  {
  }

  /** The first mark is that of the first region, with the trail the run began with. */
  ghost predicate Begins(trace: seq<Mark>, first: Trail) {
    trace != [] ==> trace[0].iteration == 0 == trace[0].position && trace[0].trail == first
  }

  lemma BeginsStill(trace: seq<Mark>, m: Mark, first: Trail)
    requires Begins(trace, first) && (trace == [] ==> m.iteration == 0 == m.position && m.trail == first)
    ensures Begins(trace + [m], first)
  {
  }

  lemma FollowGrows(world: World, order: seq<RunRegion>, table: RoutingTable, trace: seq<Mark>, m: Mark)
    requires Follow(world, order, table, trace) && MarkPlaced(order, m)
    requires trace != [] ==> Linked(world, order, table, trace[|trace| - 1], m.iteration, m.position, m.trail, m.ledger, false)
    ensures Follow(world, order, table, trace + [m])
  {
    hide Linked;
  }

  ghost predicate MarkedAt(m: Mark, iteration: nat, position: nat, a: Trail) {
    m.iteration == iteration && m.position == position && m.trail == a
  }

  /** Since then regions of this iteration have started in plan order, the first one with what had been left behind. */
  ghost predicate MarkedSince(before: seq<Mark>, after: seq<Mark>, iteration: nat, a: Trail) {
    before <= after && forall k :: |before| <= k < |after| ==>
      && after[k].iteration == iteration && after[k].position == k - |before| && a.log <= after[k].trail.log
      && (k == |before| ==> after[k].trail == a)
  }

  lemma FaredWell(world: World, a: Score, b: Score)
    requires Fared(world, a, b, true)
    ensures Succeeded(world, b.log, |a.log|) && b.configs == a.configs
  {
  }

  lemma FaredGrows(world: World, a: Score, b: Score)
    requires Fared(world, a, b, true)
    ensures a.log <= b.log
  {
  }

  lemma RegionDone(world: World, order: seq<RunRegion>, table: RoutingTable, m: Mark, n: nat, t: Trail, l: Ledger, stopped: bool)
    requires m.position < |order| && RoundRight(world, order[m.position], m.trail.signals, n, stopped)
    requires VisitedFrom(m.trail, t, Repeat(order[m.position].components, n)) && Succeeded(world, t.log, |m.trail.log|)
    requires t.signals == m.trail.signals + SignalsTaken(order[m.position], n)
    requires Performed(world, Start(m.stores, |m.trail.staged|), table, m.trail, t)
    requires Advances(m.ledger, l)
    ensures Linked(world, order, table, m, m.iteration, m.position + 1, t, l, stopped)
  {
    hide RoundRight, VisitedFrom, Performed, Repeat, Advances, Succeeded;
    assert RegionRan(world, table, order[m.position], m, t, stopped);
  }

  /** A batch was lost exactly when it was refused. */
  lemma LostMore(l: Ledger, batch: seq<Routed>, accepted: bool)
    requires batch == [] ==> accepted
    ensures accepted <==> Committed(l, batch, accepted).lost == l.lost
    ensures l.lost <= Committed(l, batch, accepted).lost
  {
    if !accepted {
      assert |l.lost + batch| > |l.lost|;
    }
  }

  lemma NothingLostToo(l: Ledger, l': Ledger)
    requires l' == l.(lost := l.lost + [])
    ensures l' == l
  {
  }

  lemma CompositeCrosses(st: Stages, active: set<Id>)
    requires WellPlaced(st, active)
    ensures forall p :: p in st.composite ==> p.edge.Crosses(active)
  {
  }

  lemma DiscardAdvances(l: Ledger, outputs: seq<Routed>)
    ensures Advances(l, l.(discarded := l.discarded + outputs))
  {
  }

  lemma NoneCrosses(active: set<Id>)
    ensures Fenced([], active)
  {
  }

  /** A visit is entered in the log, and then its executions follow. */
  lemma VisitPerformed(world: World, start: Start, table: RoutingTable, a: Trail, b: Trail, visit: Visit)
    requires Acted(start, table, a.(log := a.log + [visit]), b, VisitDone(world, |a.log|, visit)) && b.log == a.log + [visit]
    ensures Performed(world, start, table, a, b) && VisitedFrom(a, b, [visit.component])
  {
    hide VisitDone, StagedFor, OutputsOf, WritesOf, UpdatesOf, PendingAfter, Performed;
    PerformedVisit(world, start, table, a, b, visit);
    assert b.log[|a.log|..] == [visit];
  }

  lemma EngineLedger(engine: T.TriggerPolicyEngine, p: Id)
    requires engine.Valid() && p in engine.inputs
    ensures p in engine.drained && p in engine.pending
    ensures multiset(engine.drained[p]) ==
      multiset(engine.pending[p]) + multiset(OnPort(engine.emitted, p)) + multiset(OnPort(engine.dropped, p))
  {
    assert p in Elements(engine.inputs);
  }

  lemma EngineShaped(engine: T.TriggerPolicyEngine)
    requires engine.Valid()
    ensures Distinct(engine.inputs)
  {
  }

  lemma NothingLogged(component: Id, arrivals: Queues)
    ensures InputsLog(component, [], arrivals) == [] && AllIn([], arrivals)
  {
  }

  lemma StepTaken(steps: seq<S.Step>, step: S.Step)
    ensures S.Run(steps + [step]) == S.After(S.Run(steps), step)
  {
    assert (steps + [step])[..|steps|] == steps;
  }

  lemma TracksBound(start: Start, st: Stages, l: Ledger)
    requires Tracks(start, st, l)
    ensures start.count <= |l.staged|
  {
  }

  /** A publication is staged, and nothing else happens to the ledger. */
  lemma PublishMoves(a: Moment, b: Moment, start: Start, st: Stages, st': Stages, table: RoutingTable, o: Output, accepted: bool)
    requires b == a.(ledger := b.ledger) && Tracks(start, st, a.ledger)
    requires if o.endpoint in table then FannedTo(st, a.ledger, st', b.ledger, table[o.endpoint], o.payload, o.stamp, accepted)
      else st' == st && b.ledger == a.ledger
    ensures Moves(a, b) && b.ledger.lost == a.ledger.lost && a.ledger.staged <= b.ledger.staged && b.ledger.committed == a.ledger.committed
    ensures start.count <= |a.ledger.staged| && Tracks(start, st', b.ledger)
    ensures OneStaged(start, a.ledger.staged, b.ledger.staged, table, o)
  {
    hide Tracks, Progress, Carried, WillingNow, Willing, Took, AllWilling;
    TracksBound(start, st, a.ledger);
    ProgressNone(a.ledger, a.active);
    CarriedNothing(a.sent, a.ledger, a.ledger);
    if o.endpoint in table {
      var edges := table[o.endpoint];
      var n: nat :| StagedUpTo(st, a.ledger, b.ledger, edges, n, o.payload, o.stamp, accepted);
      TracksMore(start, st, a.ledger, st', b.ledger);
      forall i | 0 <= i < |edges| ensures Willing(st, edges[i]) <==> WillingNow(start, a.ledger.staged, edges[i]) {
        WillingTracked(start, st, a.ledger, edges[i]);
      }
      StagingProgress(a.ledger, b.ledger, a.active, edges, n, o.payload, o.stamp);
      CarriedNothing(a.sent, a.ledger, b.ledger);
    }
  }

  lemma StagingProgress(l: Ledger, l': Ledger, active: set<Id>, edges: seq<RoutedEdge>, n: nat, payload: Payload, stamp: Option<Stamp>)
    requires LedgerGrows(l, l', edges, n, payload, stamp)
    ensures Progress(l, l', active) && l'.committed == l.committed && l'.lost == l.lost && l.staged <= l'.staged
  {
  }
}
