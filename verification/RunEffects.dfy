/** What visits of components do: what they stage, on which edges, what they write to the state store and which
    configuration updates they ask for. What components do and how time passes is taken from outside. */
module RunEffects {
  import opened Ids
  import opened Messages
  import opened Staging
  import opened RunHistory
  import opened PublicationRouter
  import opened LoopPolicies
  import C = ConfigTransactions
  import S = StateStores
  import T = TriggerEngine

  /** What a component publishes on one of its ports, and that publication at its source endpoint. */
  datatype Emission = Emission(port: string, payload: Payload, stamp: Option<Stamp>)

  datatype Output = Output(endpoint: Id, payload: Payload, stamp: Option<Stamp>)

  /** A port that an execution drains by itself, and how many messages it takes at most; zero is no limit. */
  datatype Drain = Drain(port: string, max: nat)

  datatype Update = Update(id: Id, config: C.ConfigView)

  /** One execution of a component: what it drains from ports by itself, writes to the state store, asks to be
      configured from the next iteration on, and publishes; and whether it succeeds. */
  datatype Execution = Execution(drains: seq<Drain>, writes: seq<S.Write>, updates: seq<Update>, outputs: seq<Emission>, ok: bool)

  /** The outside: what the execution of an invocation of a visit does, whether a component's executions commit one
      by one, loop signals, clock readings, and stop requests; and the time domain each component listens in. */
  datatype World = World(execute: (nat, nat, T.Invocation) -> Execution, commitsEach: Id -> bool, signal: nat -> LoopSignal,
                         now: nat -> int, stops: nat -> bool, domain: Id -> Domain)

  datatype Done = Done(component: Id, execution: Execution)

  // ----- what is staged

  /** The router's stores at some moment, and how much had been staged by then. */
  datatype Start = Start(st: Stages, count: nat)

  /** What is pending on an async channel after everything staged since. */
  function QueueNow(start: Start, s: seq<Routed>, c: Id): seq<Routed>
    requires start.count <= |s|
  {
    QueueAfter(Pending(start.st, c), s[start.count..], c)
  }

  /** The stores' async queues are what staging alone has made of those at the start. */
  ghost predicate Tracks(start: Start, st: Stages, l: Ledger) {
    start.count <= |l.staged| && forall c :: Pending(st, c) == QueueNow(start, l.staged, c)
  }

  lemma TracksFirst(st: Stages, l: Ledger)
    ensures Tracks(Start(st, |l.staged|), st, l)
  {
    hide Pending;
    assert l.staged[|l.staged|..] == [];
  }

  lemma TracksMore(start: Start, st: Stages, l: Ledger, st': Stages, l': Ledger)
    requires Tracks(start, st, l) && Took(st, l, st', l')
    ensures Tracks(start, st', l')
  {
    hide Pending, QueueAfter;
    var since, more := l.staged[start.count..], l'.staged[|l.staged|..];
    assert l'.staged[start.count..] == since + more;
    forall c ensures Pending(st', c) == QueueNow(start, l'.staged, c) {
      QueueAfterConcat(Pending(start.st, c), since, more, c);
    }
  }

  lemma TracksSame(start: Start, st: Stages, l: Ledger, st': Stages, l': Ledger)
    requires Tracks(start, st, l) && l'.staged == l.staged && forall c :: Pending(st', c) == Pending(st, c)
    ensures Tracks(start, st', l')
  {
    hide Pending, QueueAfter;
  }

  /** Whether an edge takes one more publication, as far as staging since the start can tell. */
  ghost predicate WillingNow(start: Start, s: seq<Routed>, e: RoutedEdge)
    requires start.count <= |s|
  {
    (e.Async() ==> !AtLimit(QueueNow(start, s, e.channel), e)) || e.DropsOldest()
  }

  lemma WillingTracked(start: Start, st: Stages, l: Ledger, e: RoutedEdge)
    requires Tracks(start, st, l)
    ensures Willing(st, e) <==> WillingNow(start, l.staged, e)
  {
    hide Pending, QueueNow;
  }

  /** What one output leaves staged: a publication for each edge of its endpoint, up to the first one that is not
      willing to take it. */
  ghost predicate OneStaged(start: Start, s: seq<Routed>, s': seq<Routed>, table: RoutingTable, o: Output)
    requires start.count <= |s|
  {
    if o.endpoint !in table then s' == s
    else
      var edges := table[o.endpoint];
      && s <= s' && |s'| - |s| <= |edges|
      && (forall k :: |s| <= k < |s'| ==> s'[k] == Routed(k, edges[k - |s|], o.payload, o.stamp))
      && (forall k :: 0 <= k < |s'| - |s| ==> WillingNow(start, s, edges[k]))
      && (|s'| - |s| < |edges| ==> !WillingNow(start, s, edges[|s'| - |s|]))
  }

  function LastOf(outputs: seq<Output>): Output
    requires outputs != []
  {
    outputs[|outputs| - 1]
  }

  /** The staging history grows by exactly these outputs, in order. */
  ghost predicate StagedFor(start: Start, s: seq<Routed>, s': seq<Routed>, table: RoutingTable, outputs: seq<Output>)
    requires start.count <= |s|
    decreases |outputs|
  {
    if outputs == [] then s' == s
    else exists mid: seq<Routed> ::
      start.count <= |mid| && OneStaged(start, mid, s', table, LastOf(outputs)) && StagedFor(start, s, mid, table, outputs[..|outputs| - 1])
  }

  lemma StagedForOne(start: Start, a: seq<Routed>, b: seq<Routed>, c: seq<Routed>, table: RoutingTable, outputs: seq<Output>, o: Output)
    requires start.count <= |a| && start.count <= |b|
    requires StagedFor(start, a, b, table, outputs) && OneStaged(start, b, c, table, o)
    ensures StagedFor(start, a, c, table, outputs + [o])
  {
    hide OneStaged;
    assert (outputs + [o])[..|outputs|] == outputs;
    assert OneStaged(start, b, c, table, LastOf(outputs + [o]));
  }

  lemma {:induction false} StagedForChain(start: Start, a: seq<Routed>, b: seq<Routed>, c: seq<Routed>, table: RoutingTable,
                                          first: seq<Output>, second: seq<Output>)
    requires start.count <= |a| && start.count <= |b|
    requires StagedFor(start, a, b, table, first) && StagedFor(start, b, c, table, second)
    ensures StagedFor(start, a, c, table, first + second)
    decreases |second|
  {
    hide OneStaged;
    if second == [] {
      assert first + second == first;
    } else {
      var front, o := second[..|second| - 1], second[|second| - 1];
      var mid: seq<Routed> :| start.count <= |mid| && StagedFor(start, b, mid, table, front) && OneStaged(start, mid, c, table, o);
      StagedForChain(start, a, b, mid, table, first, front);
      StagedForOne(start, a, mid, c, table, first + front, o);
      assert first + second == (first + front) + [o];
    }
  }

  ghost predicate Traceable(table: RoutingTable, outputs: seq<Output>, p: Routed) {
    exists o :: o in outputs && StagedOn(table, o, p.edge)
  }

  lemma {:induction false} StagedForGrows(start: Start, s: seq<Routed>, s': seq<Routed>, table: RoutingTable, outputs: seq<Output>)
    requires start.count <= |s| && StagedFor(start, s, s', table, outputs)
    ensures s <= s'
    ensures forall k :: |s| <= k < |s'| ==> Traceable(table, outputs, s'[k]) && s'[k].ticket == k
    decreases |outputs|
  {
    hide WillingNow, StagedOn;
    if outputs != [] {
      var front, o := outputs[..|outputs| - 1], LastOf(outputs);
      assert outputs == front + [o];
      var mid: seq<Routed> :| start.count <= |mid| && OneStaged(start, mid, s', table, o) && StagedFor(start, s, mid, table, front);
      StagedForGrows(start, s, mid, table, front);
      OneStagedEdges(start, mid, s', table, o);
      forall k | |s| <= k < |s'| ensures Traceable(table, outputs, s'[k]) && s'[k].ticket == k {
        if k < |mid| {
          assert s'[k] == mid[k];
          var x :| x in front && StagedOn(table, x, mid[k].edge);
          assert x in outputs;
        } else {
          assert o in outputs;
        }
      }
    }
  }

  ghost predicate StagedOn(table: RoutingTable, o: Output, e: RoutedEdge) {
    o.endpoint in table && e in table[o.endpoint]
  }

  lemma OneStagedEdges(start: Start, s: seq<Routed>, s': seq<Routed>, table: RoutingTable, o: Output)
    requires start.count <= |s| && OneStaged(start, s, s', table, o)
    ensures s <= s' && forall k :: |s| <= k < |s'| ==> StagedOn(table, o, s'[k].edge) && s'[k].ticket == k
  {
    hide WillingNow;
  }

  // ----- what executions do

  function Sourced(component: Id, emissions: seq<Emission>): seq<Output> {
    seq(|emissions|, i requires 0 <= i < |emissions| =>
      Output(component + "." + emissions[i].port, emissions[i].payload, emissions[i].stamp))
  }

  function OutputsOf(done: seq<Done>): seq<Output> {
    if done == [] then []
    else
      var d := done[|done| - 1];
      OutputsOf(done[..|done| - 1]) + Sourced(d.component, d.execution.outputs)
  }

  function Stagings(writes: seq<S.Write>): seq<S.Step> {
    seq(|writes|, i requires 0 <= i < |writes| => S.Stage(writes[i]))
  }

  function WritesOf(done: seq<Done>): seq<S.Step> {
    if done == [] then [] else WritesOf(done[..|done| - 1]) + Stagings(done[|done| - 1].execution.writes)
  }

  function UpdatesOf(done: seq<Done>): seq<Update> {
    if done == [] then [] else UpdatesOf(done[..|done| - 1]) + done[|done| - 1].execution.updates
  }

  lemma EffectsConcat(a: seq<Done>, b: seq<Done>)
    ensures OutputsOf(a + b) == OutputsOf(a) + OutputsOf(b)
    ensures WritesOf(a + b) == WritesOf(a) + WritesOf(b) && UpdatesOf(a + b) == UpdatesOf(a) + UpdatesOf(b)
  {
    hide OutputsOf, WritesOf, UpdatesOf;
    OutputsConcat(a, b);
    WritesConcat(a, b);
    UpdatesConcat(a, b);
  }

  lemma {:induction false} OutputsConcat(a: seq<Done>, b: seq<Done>)
    ensures OutputsOf(a + b) == OutputsOf(a) + OutputsOf(b)
  {
    hide Sourced;
    if b == [] {
      assert a + b == a;
    } else {
      assert (a + b)[..|a + b| - 1] == a + b[..|b| - 1];
      OutputsConcat(a, b[..|b| - 1]);
    }
  }

  lemma {:induction false} WritesConcat(a: seq<Done>, b: seq<Done>)
    ensures WritesOf(a + b) == WritesOf(a) + WritesOf(b)
  {
    hide Stagings;
    if b == [] {
      assert a + b == a;
    } else {
      assert (a + b)[..|a + b| - 1] == a + b[..|b| - 1];
      WritesConcat(a, b[..|b| - 1]);
    }
  }

  lemma {:induction false} UpdatesConcat(a: seq<Done>, b: seq<Done>)
    ensures UpdatesOf(a + b) == UpdatesOf(a) + UpdatesOf(b)
  {
    if b == [] {
      assert a + b == a;
    } else {
      assert (a + b)[..|a + b| - 1] == a + b[..|b| - 1];
      UpdatesConcat(a, b[..|b| - 1]);
    }
  }

  lemma EffectsOne(d: Done)
    ensures OutputsOf([d]) == Sourced(d.component, d.execution.outputs)
    ensures WritesOf([d]) == Stagings(d.execution.writes) && UpdatesOf([d]) == d.execution.updates
  {
    assert [d][..0] == [];
  }

  /** The last update asked for counts; one without a component is refused. */
  function PendingAfter(pending: C.Configs, updates: seq<Update>): C.Configs {
    if updates == [] then pending
    else
      var before, u := PendingAfter(pending, updates[..|updates| - 1]), updates[|updates| - 1];
      if u.id == "" then before else before[u.id := u.config]
  }

  lemma {:induction false} PendingAfterConcat(pending: C.Configs, a: seq<Update>, b: seq<Update>)
    ensures PendingAfter(pending, a + b) == PendingAfter(PendingAfter(pending, a), b)
  {
    if b == [] {
      assert a + b == a;
    } else {
      assert (a + b)[..|a + b| - 1] == a + b[..|b| - 1];
      PendingAfterConcat(pending, a, b[..|b| - 1]);
    }
  }

  /** The trail has grown by exactly what these executions did, in order. */
  ghost predicate Acted(start: Start, table: RoutingTable, a: Trail, b: Trail, done: seq<Done>) {
    && start.count <= |a.staged| && StagedFor(start, a.staged, b.staged, table, OutputsOf(done)) && a.staged <= b.staged
    && b.steps == a.steps + WritesOf(done) && b.configs == a.configs && b.pending == PendingAfter(a.pending, UpdatesOf(done))
  }

  lemma ActedNothing(start: Start, table: RoutingTable, a: Trail, b: Trail)
    requires start.count <= |a.staged| && b == a.(log := b.log)
    ensures Acted(start, table, a, b, [])
  {
  }

  lemma ActedChain(start: Start, table: RoutingTable, a: Trail, b: Trail, c: Trail, first: seq<Done>, second: seq<Done>)
    requires Acted(start, table, a, b, first) && Acted(start, table, b, c, second)
    ensures Acted(start, table, a, c, first + second)
  {
    hide StagedFor, OutputsOf, WritesOf, UpdatesOf, PendingAfter;
    EffectsConcat(first, second);
    StagedForChain(start, a.staged, b.staged, c.staged, table, OutputsOf(first), OutputsOf(second));
    PendingAfterConcat(a.pending, UpdatesOf(first), UpdatesOf(second));
  }

  // ----- visits

  function VisitDone(world: World, v: nat, visit: Visit): seq<Done> {
    seq(|visit.given|, i requires 0 <= i < |visit.given| => Done(visit.component, world.execute(v, i, visit.given[i])))
  }

  /** All executions of these visits, the first of which is number `first`. */
  function VisitsDone(world: World, first: nat, visits: seq<Visit>): seq<Done> {
    if visits == [] then []
    else
      var n := |visits| - 1;
      VisitsDone(world, first, visits[..n]) + VisitDone(world, first + n, visits[n])
  }

  lemma {:induction false} VisitsDoneConcat(world: World, first: nat, a: seq<Visit>, b: seq<Visit>)
    ensures VisitsDone(world, first, a + b) == VisitsDone(world, first, a) + VisitsDone(world, first + |a|, b)
  {
    hide VisitDone;
    if b == [] {
      assert a + b == a;
    } else {
      assert (a + b)[..|a + b| - 1] == a + b[..|b| - 1];
      VisitsDoneConcat(world, first, a, b[..|b| - 1]);
    }
  }

  /** From one moment to another, components were visited, and what was left behind is exactly what those visits
      did. */
  ghost predicate Performed(world: World, start: Start, table: RoutingTable, a: Trail, b: Trail) {
    a.log <= b.log && Acted(start, table, a, b, VisitsDone(world, |a.log|, b.log[|a.log|..]))
  }

  lemma PerformedNothing(world: World, start: Start, table: RoutingTable, a: Trail)
    requires start.count <= |a.staged|
    ensures Performed(world, start, table, a, a)
  {
    assert a.log[|a.log|..] == [];
  }

  lemma PerformedChain(world: World, start: Start, table: RoutingTable, a: Trail, b: Trail, c: Trail)
    requires Performed(world, start, table, a, b) && Performed(world, start, table, b, c)
    ensures Performed(world, start, table, a, c)
  {
    hide Acted, VisitsDone;
    var first, second := b.log[|a.log|..], c.log[|b.log|..];
    assert c.log[|a.log|..] == first + second;
    VisitsDoneConcat(world, |a.log|, first, second);
    ActedChain(start, table, a, b, c, VisitsDone(world, |a.log|, first), VisitsDone(world, |b.log|, second));
  }

  lemma PerformedVisit(world: World, start: Start, table: RoutingTable, a: Trail, b: Trail, visit: Visit)
    requires b.log == a.log + [visit] && Acted(start, table, a, b, VisitDone(world, |a.log|, visit))
    ensures Performed(world, start, table, a, b)
  {
    hide Acted, VisitDone;
    assert b.log[|a.log|..] == [visit] && [visit][..0] == [];
    var done := VisitDone(world, |a.log|, visit);
    assert VisitsDone(world, |a.log|, [visit]) == [] + done == done;
  }

  /** Which components were visited. */
  function Visited(visits: seq<Visit>): seq<Id> {
    seq(|visits|, i requires 0 <= i < |visits| => visits[i].component)
  }

  ghost predicate VisitedFrom(a: Trail, b: Trail, components: seq<Id>) {
    a.log <= b.log && Visited(b.log[|a.log|..]) == components
  }

  lemma VisitedNothing(a: Trail)
    ensures VisitedFrom(a, a, [])
  {
    assert Visited(a.log[|a.log|..]) == [];
  }

  lemma VisitedOne(a: Trail, b: Trail, visit: Visit)
    requires b.log == a.log + [visit]
    ensures VisitedFrom(a, b, [visit.component])
  {
    assert b.log[|a.log|..] == [visit];
    assert visit == b.log[|a.log|..][0];
  }

  lemma VisitedChain(a: Trail, b: Trail, c: Trail, first: seq<Id>, second: seq<Id>)
    requires VisitedFrom(a, b, first) && VisitedFrom(b, c, second)
    ensures VisitedFrom(a, c, first + second)
  {
    assert c.log[|a.log|..] == b.log[|a.log|..] + c.log[|b.log|..];
  }

  // ----- how visits fare

  /** All executions of a visit succeed. */
  ghost predicate GivenSucceeds(world: World, v: nat, given: seq<T.Invocation>) {
    forall i :: 0 <= i < |given| ==> world.execute(v, i, given[i]).ok
  }

  /** All executions of the visits from this one on succeed. */
  ghost predicate Succeeded(world: World, log: seq<Visit>, from: nat) {
    forall v :: from <= v < |log| ==> GivenSucceeds(world, v, log[v].given)
  }

  function Invocations(visits: seq<Visit>): nat {
    if visits == [] then 0 else Invocations(visits[..|visits| - 1]) + |visits[|visits| - 1].given|
  }

  lemma {:induction false} InvocationsConcat(a: seq<Visit>, b: seq<Visit>)
    ensures Invocations(a + b) == Invocations(a) + Invocations(b)
  {
    if b == [] {
      assert a + b == a;
    } else {
      assert (a + b)[..|a + b| - 1] == a + b[..|b| - 1];
      InvocationsConcat(a, b[..|b| - 1]);
    }
  }

  lemma {:induction false} NoInvocations(visits: seq<Visit>)
    ensures Invocations(visits) == 0 <==> forall k :: 0 <= k < |visits| ==> visits[k].given == []
  {
    if visits != [] {
      NoInvocations(visits[..|visits| - 1]);
    }
  }

  /** The visits so far, the publications lost with refused batches, the stored configurations, and the number of
      invocations executed. */
  datatype Score = Score(log: seq<Visit>, lost: seq<Routed>, configs: C.Configs, ticks: nat)

  /** From one moment to another, things went well exactly when every execution succeeded and no batch was refused; then
      every invocation was counted. No stored configuration changed. */
  ghost predicate Fared(world: World, a: Score, b: Score, ok: bool) {
    && a.log <= b.log && a.lost <= b.lost && b.configs == a.configs
    && (ok <==> Succeeded(world, b.log, |a.log|) && b.lost == a.lost)
    && (ok ==> b.ticks == a.ticks + Invocations(b.log[|a.log|..]))
  }

  lemma FaredNothing(world: World, a: Score)
    ensures Fared(world, a, a, true)
  {
    assert a.log[|a.log|..] == [];
  }

  lemma FaredVisit(world: World, a: Score, b: Score, visit: Visit, ok: bool)
    requires b.log == a.log + [visit] && a.lost <= b.lost && b.configs == a.configs
    requires ok <==> GivenSucceeds(world, |a.log|, visit.given) && b.lost == a.lost
    requires ok ==> b.ticks == a.ticks + |visit.given|
    ensures Fared(world, a, b, ok)
  {
    hide GivenSucceeds;
    assert b.log[|a.log|..] == [visit] && [visit][..0] == [] && b.log[|a.log|] == visit;
    assert Invocations([visit]) == |visit.given|;
  }

  lemma FaredEither(world: World, a: Score, b: Score)
    ensures !(Fared(world, a, b, true) && Fared(world, a, b, false))
  {
  }

  lemma FaredChain(world: World, a: Score, b: Score, c: Score, ok: bool)
    requires Fared(world, a, b, true) && Fared(world, b, c, ok)
    ensures Fared(world, a, c, ok)
  {
    hide GivenSucceeds;
    assert c.log[|a.log|..] == b.log[|a.log|..] + c.log[|b.log|..];
    InvocationsConcat(b.log[|a.log|..], c.log[|b.log|..]);
    forall v | |a.log| <= v < |b.log| ensures c.log[v] == b.log[v] {
    }
  }

  /** A batch is handed over at the end, or nothing is. */
  lemma FaredClosing(world: World, a: Score, b: Score, c: Score, ok: bool)
    requires Fared(world, a, b, true) && c == b.(lost := c.lost) && b.lost <= c.lost && (ok <==> c.lost == b.lost)
    ensures Fared(world, a, c, ok)
  {
    hide Succeeded;
  }

  // ----- regions and iterations

  /** How often a region runs: a plain one once; a loop until its policy ends it, in a way that does not fail the run,
      by the signals from this one on. It was stopped if it was cancelled. */
  ghost predicate RoundRight(world: World, region: RunRegion, base: nat, n: nat, stopped: bool) {
    if region.isLoop then
      exists reason: LoopStop ::
        LoopEnded(region.policy, world.signal, base, n, reason) && !FailsRun(region.policy, reason) && (stopped <==> reason == CancelledLoop)
    else n == 1 && !stopped
  }

  function SignalsTaken(region: RunRegion, n: nat): nat {
    if region.isLoop then n else 0
  }

  /** A region ran from its mark on: its components were visited in order, once or as often as its loop said, all their
      executions succeeded, and what was left behind is exactly what those visits did. */
  ghost predicate RegionRan(world: World, table: RoutingTable, region: RunRegion, m: Mark, t: Trail, stopped: bool) {
    && (exists n: nat {:trigger RoundRight(world, region, m.trail.signals, n, stopped)} ::
         && RoundRight(world, region, m.trail.signals, n, stopped) && VisitedFrom(m.trail, t, Repeat(region.components, n))
         && t.signals == m.trail.signals + SignalsTaken(region, n))
    && Succeeded(world, t.log, |m.trail.log|)
    && Performed(world, Start(m.stores, |m.trail.staged|), table, m.trail, t)
  }

  /** The loop of the region ended in a way that fails the run. */
  ghost predicate RegionFailed(world: World, region: RunRegion, a: Trail, t: Trail) {
    region.isLoop && exists n: nat, reason: LoopStop ::
      && LoopEnded(region.policy, world.signal, a.signals, n, reason) && FailsRun(region.policy, reason)
      && VisitedFrom(a, t, Repeat(region.components, n)) && t.signals == a.signals + n
  }

  /** Between two iterations what was written becomes readable, and the updates asked for are in force. */
  function Crossed(t: Trail): Trail {
    t.(steps := t.steps + [S.Commit], configs := C.Overlaid(t.configs, t.pending), pending := map[])
  }

  /** The region of the mark has run, and the run stands behind it: at the next position of the plan, or at the
      first one of the next iteration. A region that was stopped is the last one to run. */
  ghost predicate Linked(world: World, order: seq<RunRegion>, table: RoutingTable, m: Mark, iteration: nat, position: nat, now: Trail,
                         l: Ledger, stopped: bool)
  {
    && Stepped(m, iteration, position, l)
    && exists t: Trail ::
        && m.position < |order| && RegionRan(world, table, order[m.position], m, t, stopped)
        && if iteration == m.iteration then position == m.position + 1 && now == t
           else iteration == m.iteration + 1 && position == 0 && m.position + 1 == |order| && now == Crossed(t)
  }

  /** What is known of a mark by itself. */
  ghost predicate MarkPlaced(order: seq<RunRegion>, m: Mark) {
    && m.position < |order| && m.trail.staged == m.ledger.staged
    && (m.position == 0 ==> m.base == |m.ledger.staged|)
  }

  /** A whole trace: from mark to mark exactly the regions of the plan have run, pass after pass. */
  ghost predicate Follow(world: World, order: seq<RunRegion>, table: RoutingTable, trace: seq<Mark>) {
    && (forall k :: 0 <= k < |trace| ==> MarkPlaced(order, trace[k]))
    && forall k :: 0 < k < |trace| ==>
        Linked(world, order, table, trace[k - 1], trace[k].iteration, trace[k].position, trace[k].trail, trace[k].ledger, false)
  }

  lemma FollowPasses(world: World, order: seq<RunRegion>, table: RoutingTable, trace: seq<Mark>)
    requires Follow(world, order, table, trace)
    ensures Passes(trace)
  {
    hide RegionRan, Stepped;
    forall k | 0 < k < |trace| ensures Stepped(trace[k - 1], trace[k].iteration, trace[k].position, trace[k].ledger) {
      assert Linked(world, order, table, trace[k - 1], trace[k].iteration, trace[k].position, trace[k].trail, trace[k].ledger, false);
    }
  }
}
