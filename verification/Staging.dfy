/** The four stores between publishing and committing, as values: what is held, and what became of the rest. */
module Staging {
  import opened Ids
  import opened Messages
  import opened GraphSpecs

  datatype RoutedEdge = RoutedEdge(channel: Id, source: Id, target: Id, kind: EdgeKind, maxInflight: int, overflow: string)
  {
    predicate Async() {
      kind == EdgeKind.Async
    }

    predicate Limited() {
      Async() && maxInflight > 0
    }

    predicate DropsOldest() {
      overflow == "drop_oldest" || overflow == "overwrite"
    }

    /** The edge leaves the active composite region. */
    predicate Crosses(active: set<Id>) {
      source in active && target !in active
    }
  }

  /** A staged publication. Its ticket is the number of publications staged before it. */
  datatype Routed = Routed(ticket: nat, edge: RoutedEdge, payload: Payload, stamp: Option<Stamp>)

  datatype Stages = Stages(immediate: seq<Routed>, nextEpoch: seq<Routed>, ready: seq<Routed>, composite: seq<Routed>)

  /** Everything ever staged, and what was committed, discarded with a composite region, overwritten by async
      admission, or lost with a batch the bus refused. */
  datatype Ledger = Ledger(staged: seq<Routed>, committed: seq<Routed>, discarded: seq<Routed>, overwritten: seq<Routed>,
                           lost: seq<Routed>)

  // The pending publications of an async channel, oldest first.

  function OfChannel(s: seq<Routed>, c: Id): seq<Routed> {
    if s == [] then []
    else
      var p := s[|s| - 1];
      OfChannel(s[..|s| - 1], c) + if p.edge.Async() && p.edge.channel == c then [p] else []
  }

  function Pending(st: Stages, c: Id): seq<Routed> {
    OfChannel(st.ready, c) + OfChannel(st.nextEpoch, c) + OfChannel(st.composite, c)
  }

  lemma {:induction false} OfChannelConcat(a: seq<Routed>, b: seq<Routed>, c: Id)
    ensures OfChannel(a + b, c) == OfChannel(a, c) + OfChannel(b, c)
  {
    if b == [] {
      assert a + b == a;
    } else {
      assert (a + b)[..|a + b| - 1] == a + b[..|b| - 1];
      OfChannelConcat(a, b[..|b| - 1], c);
    }
  }

  lemma OfChannelOne(p: Routed, c: Id)
    ensures OfChannel([p], c) == if p.edge.Async() && p.edge.channel == c then [p] else []
  {
    assert [p][..0] == [];
  }

  lemma {:induction false} OfChannelNone(s: seq<Routed>, c: Id)
    requires forall p :: p in s ==> !(p.edge.Async() && p.edge.channel == c)
    ensures OfChannel(s, c) == []
  {
    if s != [] {
      OfChannelNone(s[..|s| - 1], c);
    }
  }

  lemma {:induction false} OfChannelIn(s: seq<Routed>, c: Id)
    ensures forall p :: p in OfChannel(s, c) ==> p in s && p.edge.Async() && p.edge.channel == c
  {
    if s != [] {
      OfChannelIn(s[..|s| - 1], c);
      assert s == s[..|s| - 1] + [s[|s| - 1]];
    }
  }

  /** The first pending publication of the channel is number k; there is none if k is the length. */
  ghost predicate FirstOf(s: seq<Routed>, c: Id, k: nat) {
    && k <= |s| && (k < |s| ==> s[k].edge.Async() && s[k].edge.channel == c)
    && forall j :: 0 <= j < k ==> !(s[j].edge.Async() && s[j].edge.channel == c)
  }

  function Without(s: seq<Routed>, k: nat): seq<Routed>
    requires k < |s|
  {
    s[..k] + s[k + 1..]
  }

  /** Taking out the first pending publication of a channel takes the head off its queue and leaves others alone. */
  lemma RemoveFirst(s: seq<Routed>, c: Id, k: nat)
    requires FirstOf(s, c, k)
    ensures k == |s| ==> OfChannel(s, c) == []
    ensures k < |s| ==> OfChannel(s, c) == [s[k]] + OfChannel(Without(s, k), c)
    ensures k < |s| ==> forall d :: d != c ==> OfChannel(s, d) == OfChannel(Without(s, k), d)
  {
    hide OfChannel;
    if k == |s| {
      OfChannelNone(s, c);
    } else {
      var a, p, b := s[..k], s[k], s[k + 1..];
      assert s == (a + [p]) + b;
      forall d ensures OfChannel(s, d) == OfChannel(a, d) + OfChannel([p], d) + OfChannel(b, d)
        ensures OfChannel(a + b, d) == OfChannel(a, d) + OfChannel(b, d)
      {
        OfChannelConcat(a + [p], b, d);
        OfChannelConcat(a, [p], d);
        OfChannelConcat(a, b, d);
      }
      OfChannelNone(a, c);
      forall d ensures OfChannel([p], d) == if p.edge.channel == d then [p] else [] {
        OfChannelOne(p, d);
      }
      forall d | d != c ensures OfChannel(s, d) == OfChannel(Without(s, k), d) {
        assert OfChannel(a, d) + [] == OfChannel(a, d);
      }
    }
  }

  // Async publications, counted.

  function AsyncCount(s: seq<Routed>): nat {
    if s == [] then 0 else AsyncCount(s[..|s| - 1]) + if s[|s| - 1].edge.Async() then 1 else 0
  }

  lemma {:induction false} AsyncCountConcat(a: seq<Routed>, b: seq<Routed>)
    ensures AsyncCount(a + b) == AsyncCount(a) + AsyncCount(b)
  {
    if b == [] {
      assert a + b == a;
    } else {
      assert (a + b)[..|a + b| - 1] == a + b[..|b| - 1];
      AsyncCountConcat(a, b[..|b| - 1]);
    }
  }

  lemma AsyncCountOne(p: Routed)
    ensures AsyncCount([p]) == if p.edge.Async() then 1 else 0
  {
    assert [p][..0] == [];
  }

  lemma {:induction false} AsyncCountNone(s: seq<Routed>)
    requires forall p :: p in s ==> !p.edge.Async()
    ensures AsyncCount(s) == 0
  {
    if s != [] {
      AsyncCountNone(s[..|s| - 1]);
    }
  }

  function PendingAsync(st: Stages): nat {
    AsyncCount(st.ready) + AsyncCount(st.nextEpoch) + AsyncCount(st.composite)
  }

  // The balance.

  ghost function Held(st: Stages): multiset<Routed> {
    multiset(st.immediate) + multiset(st.nextEpoch) + multiset(st.ready) + multiset(st.composite)
  }

  ghost function Settled(l: Ledger): multiset<Routed> {
    multiset(l.committed) + multiset(l.discarded) + multiset(l.overwritten) + multiset(l.lost)
  }

  /** Every staged publication is held in exactly one store or was settled in exactly one way. */
  ghost predicate Balanced(st: Stages, l: Ledger) {
    && multiset(l.staged) == Held(st) + Settled(l)
    && forall i :: 0 <= i < |l.staged| ==> l.staged[i].ticket == i
  }

  /** Only async publications are ever overwritten. */
  ghost predicate AllAsync(s: seq<Routed>) {
    forall p :: p in s ==> p.edge.Async()
  }

  lemma StagedOnce(staged: seq<Routed>, p: Routed)
    requires forall i :: 0 <= i < |staged| ==> staged[i].ticket == i
    ensures multiset(staged)[p] <= 1
  {
    DistinctMultiset(staged);
  }

  /** No publication is held twice, settled twice, or both. */
  lemma NothingTwice(st: Stages, l: Ledger, p: Routed)
    requires Balanced(st, l)
    ensures Held(st)[p] + Settled(l)[p] == if p in l.staged then 1 else 0
  {
    StagedOnce(l.staged, p);
    assert multiset(l.staged)[p] == Held(st)[p] + Settled(l)[p];
    assert p in l.staged <==> p in multiset(l.staged);
  }

  /** What the stores may hold: deferred publications wait for an epoch, immediate ones do not, and only edges
      that leave the active composite region are held back for it. */
  ghost predicate WellPlaced(st: Stages, active: set<Id>) {
    && (forall p :: p in st.immediate ==> p.edge.kind == Immediate)
    && (forall p :: p in st.nextEpoch + st.ready ==> p.edge.kind != Immediate)
    && (forall p :: p in st.composite ==> p.edge.Crosses(active))
  }

  /** No publication here leaves the region. */
  ghost predicate Fenced(s: seq<Routed>, active: set<Id>) {
    forall p :: p in s ==> !p.edge.Crosses(active)
  }

  /** The immediate publications that stay inside the active region, in order. */
  function Inside(s: seq<Routed>, active: set<Id>): seq<Routed> {
    if s == [] then []
    else
      var p := s[|s| - 1];
      Inside(s[..|s| - 1], active) + if p.edge.kind == Immediate && !p.edge.Crosses(active) then [p] else []
  }

  lemma {:induction false} InsideConcat(a: seq<Routed>, b: seq<Routed>, active: set<Id>)
    ensures Inside(a + b, active) == Inside(a, active) + Inside(b, active)
  {
    if b == [] {
      assert a + b == a;
    } else {
      assert (a + b)[..|a + b| - 1] == a + b[..|b| - 1];
      InsideConcat(a, b[..|b| - 1], active);
    }
  }

  lemma InsideOne(p: Routed, active: set<Id>)
    ensures Inside([p], active) == if p.edge.kind == Immediate && !p.edge.Crosses(active) then [p] else []
  {
    assert [p][..0] == [];
  }

  /** The immediate store gains exactly the inner immediate publications staged since. */
  ghost predicate Joined(st: Stages, l: Ledger, st': Stages, l': Ledger, active: set<Id>) {
    l.staged <= l'.staged && st'.immediate == st.immediate + Inside(l'.staged[|l.staged|..], active)
  }

  lemma JoinedNothing(st: Stages, l: Ledger, active: set<Id>)
    ensures Joined(st, l, st, l, active)
  {
    assert l.staged[|l.staged|..] == [];
  }

  lemma JoinedOne(st: Stages, l: Ledger, mid: Stages, m: Ledger, st': Stages, l': Ledger, p: Routed, active: set<Id>)
    requires Joined(st, l, mid, m, active) && l'.staged == m.staged + [p] && st'.immediate == Staged(mid, p, active).immediate
    ensures Joined(st, l, st', l', active)
  {
    hide Inside;
    assert l'.staged[|l.staged|..] == m.staged[|l.staged|..] + [p];
    InsideConcat(m.staged[|l.staged|..], [p], active);
    InsideOne(p, active);
  }

  lemma JoinedChain(st: Stages, l: Ledger, mid: Stages, m: Ledger, st': Stages, l': Ledger, active: set<Id>)
    requires Joined(st, l, mid, m, active) && Joined(mid, m, st', l', active)
    ensures Joined(st, l, st', l', active)
  {
    hide Inside;
    assert l'.staged[|l.staged|..] == m.staged[|l.staged|..] + l'.staged[|m.staged|..];
    InsideConcat(m.staged[|l.staged|..], l'.staged[|m.staged|..], active);
  }

  ghost predicate FromEdges(st: Stages, edges: set<RoutedEdge>) {
    forall p :: p in st.immediate + st.nextEpoch + st.ready + st.composite ==> p.edge in edges
  }

  ghost predicate OneEdgeEach(edges: set<RoutedEdge>) {
    forall e, f :: e in edges && f in edges && e.channel == f.channel ==> e == f
  }

  ghost predicate WithinLimits(st: Stages, edges: set<RoutedEdge>) {
    forall e :: e in edges && e.Limited() ==> |Pending(st, e.channel)| <= e.maxInflight
  }

  /** The deferred publications of a composite region's outputs, and the immediate ones, each in staging order. */
  function Immediates(s: seq<Routed>): seq<Routed> {
    if s == [] then []
    else Immediates(s[..|s| - 1]) + if s[|s| - 1].edge.kind == Immediate then [s[|s| - 1]] else []
  }

  function Deferreds(s: seq<Routed>): seq<Routed> {
    if s == [] then []
    else Deferreds(s[..|s| - 1]) + if s[|s| - 1].edge.kind != Immediate then [s[|s| - 1]] else []
  }

  lemma {:induction false} SplitByKind(s: seq<Routed>)
    ensures multiset(s) == multiset(Immediates(s)) + multiset(Deferreds(s))
    ensures forall p :: p in Immediates(s) <==> p in s && p.edge.kind == Immediate
    ensures forall p :: p in Deferreds(s) <==> p in s && p.edge.kind != Immediate
  {
    if s != [] {
      SplitByKind(s[..|s| - 1]);
      assert s == s[..|s| - 1] + [s[|s| - 1]];
    }
  }

  /** Setting the immediate publications aside does not reorder the async ones. */
  lemma {:induction false} DeferredsKeepOrder(s: seq<Routed>, c: Id)
    ensures OfChannel(Deferreds(s), c) == OfChannel(s, c) && AsyncCount(Deferreds(s)) == AsyncCount(s)
  {
    if s != [] {
      var front, p := s[..|s| - 1], s[|s| - 1];
      DeferredsKeepOrder(front, c);
      assert Deferreds(front) + [] == Deferreds(front);
      OfChannelConcat(Deferreds(front), [p], c);
      OfChannelOne(p, c);
      assert OfChannel(front, c) + [] == OfChannel(front, c);
      AsyncCountConcat(Deferreds(front), [p]);
      AsyncCountOne(p);
    }
  }

  // The moves between stores.

  function Staged(st: Stages, p: Routed, active: set<Id>): Stages {
    if p.edge.Crosses(active) then st.(composite := st.composite + [p])
    else if p.edge.kind != Immediate then st.(nextEpoch := st.nextEpoch + [p])
    else st.(immediate := st.immediate + [p])
  }

  /** A publication joins the end of its own channel's queue, wherever it is stored. */
  lemma StagedPending(st: Stages, p: Routed, active: set<Id>, edges: set<RoutedEdge>, c: Id)
    requires WellPlaced(st, active) && FromEdges(st, edges) && OneEdgeEach(edges) && p.edge in edges
    ensures Pending(Staged(st, p, active), c) == Pending(st, c) + if p.edge.Async() && c == p.edge.channel then [p] else []
  {
    hide OfChannel;
    OfChannelOne(p, c);
    if p.edge.Crosses(active) {
      OfChannelConcat(st.composite, [p], c);
    } else if p.edge.kind != Immediate {
      OfChannelConcat(st.nextEpoch, [p], c);
      if p.edge.Async() && c == p.edge.channel {
        forall x | x in st.composite ensures x.edge.channel != c {
          assert x.edge in edges;
        }
        OfChannelNone(st.composite, c);
      }
    }
  }

  lemma StagedKeeps(st: Stages, p: Routed, active: set<Id>, edges: set<RoutedEdge>)
    requires WellPlaced(st, active) && FromEdges(st, edges) && p.edge in edges
    ensures WellPlaced(Staged(st, p, active), active) && FromEdges(Staged(st, p, active), edges)
  {
  }

  lemma StagedBalance(st: Stages, p: Routed, active: set<Id>, l: Ledger)
    requires Balanced(st, l) && p.ticket == |l.staged|
    ensures Balanced(Staged(st, p, active), l.(staged := l.staged + [p]))
  {
    var l' := l.(staged := l.staged + [p]);
    var st' := Staged(st, p, active);
    assert multiset(st.composite + [p]) == multiset(st.composite) + multiset{p};
    assert multiset(st.nextEpoch + [p]) == multiset(st.nextEpoch) + multiset{p};
    assert multiset(st.immediate + [p]) == multiset(st.immediate) + multiset{p};
    assert multiset(l'.staged) == multiset(l.staged) + multiset{p};
    assert Held(st') == Held(st) + multiset{p};
    assert Settled(l') == Settled(l);
  }

  lemma StagedCount(st: Stages, p: Routed, active: set<Id>)
    ensures PendingAsync(Staged(st, p, active)) == PendingAsync(st) + if p.edge.Async() then 1 else 0
  {
    hide AsyncCount;
    AsyncCountOne(p);
    AsyncCountConcat(st.composite, [p]);
    AsyncCountConcat(st.nextEpoch, [p]);
  }

  lemma WithoutSplits(s: seq<Routed>, k: nat)
    requires k < |s|
    ensures multiset(s) == multiset(Without(s, k)) + multiset{s[k]}
    ensures forall p :: p in Without(s, k) ==> p in s
    ensures AsyncCount(s) == AsyncCount(Without(s, k)) + if s[k].edge.Async() then 1 else 0
  {
    var a, b := s[..k], s[k + 1..];
    assert s == (a + [s[k]]) + b;
    AsyncCountConcat(a + [s[k]], b);
    AsyncCountConcat(a, [s[k]]);
    AsyncCountConcat(a, b);
    AsyncCountOne(s[k]);
  }

  /** One async publication, the oldest of its channel, has been taken out. */
  ghost predicate Evicted(st: Stages, st': Stages, c: Id, victim: Routed) {
    && st'.immediate == st.immediate && victim.edge.Async() && victim.edge.channel == c
    && Held(st) == Held(st') + multiset{victim}
    && Pending(st, c) == [victim] + Pending(st', c)
    && (forall d :: d != c ==> Pending(st', d) == Pending(st, d))
    && Waiting(st', c) == Tail(Waiting(st, c), 1) && (forall d :: d != c ==> Waiting(st', d) == Waiting(st, d))
    && PendingAsync(st) == PendingAsync(st') + 1
    && NothingMoved(st, st')
  }

  ghost predicate NothingMoved(st: Stages, st': Stages) {
    && (forall p :: p in st'.immediate ==> p in st.immediate)
    && (forall p :: p in st'.nextEpoch ==> p in st.nextEpoch)
    && (forall p :: p in st'.ready ==> p in st.ready)
    && (forall p :: p in st'.composite ==> p in st.composite)
  }

  lemma EvictReady(st: Stages, c: Id, k: nat)
    requires FirstOf(st.ready, c, k) && k < |st.ready|
    ensures Evicted(st, st.(ready := Without(st.ready, k)), c, st.ready[k])
  {
    hide OfChannel, AsyncCount, Without;
    RemoveFirst(st.ready, c, k);
    WithoutSplits(st.ready, k);
  }

  lemma EvictNext(st: Stages, c: Id, k: nat)
    requires FirstOf(st.ready, c, |st.ready|) && FirstOf(st.nextEpoch, c, k) && k < |st.nextEpoch|
    ensures Evicted(st, st.(nextEpoch := Without(st.nextEpoch, k)), c, st.nextEpoch[k])
  {
    hide OfChannel, AsyncCount, Without;
    RemoveFirst(st.ready, c, |st.ready|);
    RemoveFirst(st.nextEpoch, c, k);
    WithoutSplits(st.nextEpoch, k);
  }

  lemma EvictComposite(st: Stages, c: Id, k: nat)
    requires FirstOf(st.ready, c, |st.ready|) && FirstOf(st.nextEpoch, c, |st.nextEpoch|)
    requires FirstOf(st.composite, c, k) && k < |st.composite|
    ensures Evicted(st, st.(composite := Without(st.composite, k)), c, st.composite[k])
  {
    hide OfChannel, AsyncCount, Without;
    RemoveFirst(st.ready, c, |st.ready|);
    RemoveFirst(st.nextEpoch, c, |st.nextEpoch|);
    RemoveFirst(st.composite, c, k);
    WithoutSplits(st.composite, k);
  }

  lemma NoneToEvict(st: Stages, c: Id)
    requires FirstOf(st.ready, c, |st.ready|) && FirstOf(st.nextEpoch, c, |st.nextEpoch|)
    requires FirstOf(st.composite, c, |st.composite|)
    ensures Pending(st, c) == []
  {
    hide OfChannel;
    RemoveFirst(st.ready, c, |st.ready|);
    RemoveFirst(st.nextEpoch, c, |st.nextEpoch|);
    RemoveFirst(st.composite, c, |st.composite|);
  }

  lemma EvictedBalance(st: Stages, st': Stages, c: Id, victim: Routed, l: Ledger)
    requires Evicted(st, st', c, victim) && Balanced(st, l)
    ensures Balanced(st', l.(overwritten := l.overwritten + [victim]))
  {
    var l' := l.(overwritten := l.overwritten + [victim]);
    assert multiset(l'.overwritten) == multiset(l.overwritten) + multiset{victim};
    assert Held(st) + Settled(l) == Held(st') + Settled(l');
  }

  lemma EvictedKeeps(st: Stages, st': Stages, c: Id, victim: Routed, active: set<Id>, edges: set<RoutedEdge>)
    requires Evicted(st, st', c, victim) && WellPlaced(st, active) && FromEdges(st, edges) && WithinLimits(st, edges)
    ensures WellPlaced(st', active) && FromEdges(st', edges) && WithinLimits(st', edges)
  {
    hide Pending, PendingAsync, Held;
    forall e | e in edges && e.Limited() ensures |Pending(st', e.channel)| <= e.maxInflight {
      assert |Pending(st', e.channel)| <= |Pending(st, e.channel)|;
    }
  }

  /** The bounded queue of an async channel: a publication joins its end, and at the limit the head makes way. */
  function Enqueued(q: seq<Routed>, p: Routed): seq<Routed> {
    if AtLimit(q, p.edge) && q != [] then q[1..] + [p] else q + [p]
  }

  predicate AtLimit(q: seq<Routed>, e: RoutedEdge) {
    e.Limited() && |q| >= e.maxInflight
  }

  /** The channel of an async edge has room for one more. */
  ghost predicate RoomFor(st: Stages, e: RoutedEdge) {
    e.Async() ==> !AtLimit(Pending(st, e.channel), e)
  }

  /** An edge takes one more publication: there is room, or the oldest pending one makes way. */
  ghost predicate Willing(st: Stages, e: RoutedEdge) {
    RoomFor(st, e) || e.DropsOldest()
  }

  /** An edge is not willing exactly when it is async, its channel is at its limit, and its policy drops nothing old. */
  lemma WillingIff(st: Stages, e: RoutedEdge)
    ensures Willing(st, e) <==>
      e.overflow in {"drop_oldest", "overwrite"} || e.kind != EdgeKind.Async || e.maxInflight <= 0 || |Pending(st, e.channel)| < e.maxInflight
  {
  }

  ghost predicate AllWilling(st: Stages, edges: seq<RoutedEdge>) {
    forall i :: 0 <= i < |edges| ==> Willing(st, edges[i])
  }

  ghost predicate DistinctChannels(edges: seq<RoutedEdge>) {
    forall i, j :: 0 <= i < j < |edges| ==> edges[i].channel != edges[j].channel
  }

  /** A channel's queue after more publications were staged. */
  function QueueAfter(q: seq<Routed>, more: seq<Routed>, c: Id): seq<Routed> {
    if more == [] then q
    else
      var front, p := QueueAfter(q, more[..|more| - 1], c), more[|more| - 1];
      if p.edge.Async() && p.edge.channel == c then Enqueued(front, p) else front
  }

  lemma {:induction false} QueueAfterConcat(q: seq<Routed>, a: seq<Routed>, b: seq<Routed>, c: Id)
    ensures QueueAfter(q, a + b, c) == QueueAfter(QueueAfter(q, a, c), b, c)
  {
    if b == [] {
      assert a + b == a;
    } else {
      assert (a + b)[..|a + b| - 1] == a + b[..|b| - 1];
      QueueAfterConcat(q, a, b[..|b| - 1], c);
    }
  }

  lemma QueueAfterOne(q: seq<Routed>, a: seq<Routed>, p: Routed, c: Id)
    ensures QueueAfter(q, a + [p], c) ==
      if p.edge.Async() && p.edge.channel == c then Enqueued(QueueAfter(q, a, c), p) else QueueAfter(q, a, c)
  {
    assert (a + [p])[..|a|] == a;
  }

  // What an open composite region will leave behind if it is discarded.

  /** The stores when the region was opened, and how many publications had been overwritten by then. */
  datatype Opening = Opening(st: Stages, overwritten: nat)

  /** What is pending on a channel outside the composite store. */
  function Waiting(st: Stages, c: Id): seq<Routed> {
    OfChannel(st.ready, c) + OfChannel(st.nextEpoch, c)
  }

  function Tail(q: seq<Routed>, n: nat): seq<Routed> {
    if n <= |q| then q[n..] else []
  }

  ghost predicate Leaves(e: RoutedEdge, edges: set<RoutedEdge>, active: set<Id>) {
    e in edges && e.Async() && e.Crosses(active)
  }

  /** How many publications of a channel were overwritten since the region was opened. */
  ghost function EvictedSince(o: Opening, overwritten: seq<Routed>, c: Id): nat {
    if o.overwritten <= |overwritten| then |OfChannel(overwritten[o.overwritten..], c)| else 0
  }

  /** On a channel that leaves the region, what waits outside the composite store is what was pending at the
      opening, less what was evicted since. */
  ghost predicate Remembers(o: Opening, st: Stages, overwritten: seq<Routed>, active: set<Id>, edges: set<RoutedEdge>) {
    && o.overwritten <= |overwritten|
    && forall e :: Leaves(e, edges, active) ==>
        Waiting(st, e.channel) == Tail(Pending(o.st, e.channel), EvictedSince(o, overwritten, e.channel))
  }

  lemma RemembersAtFirst(st: Stages, overwritten: seq<Routed>, active: set<Id>, edges: set<RoutedEdge>)
    requires st.composite == []
    ensures Remembers(Opening(st, |overwritten|), st, overwritten, active, edges)
  {
    forall c ensures Pending(st, c) == Waiting(st, c) {
      assert OfChannel([], c) == [];
    }
    assert overwritten[|overwritten|..] == [];
  }

  /** What is staged on a channel that leaves the region goes to the composite store. */
  lemma RemembersStaged(o: Opening, st: Stages, p: Routed, overwritten: seq<Routed>, active: set<Id>, edges: set<RoutedEdge>)
    requires Remembers(o, st, overwritten, active, edges) && OneEdgeEach(edges) && p.edge in edges
    ensures Remembers(o, Staged(st, p, active), overwritten, active, edges)
  {
    hide OfChannel, Tail, EvictedSince, Pending;
    forall e | Leaves(e, edges, active) ensures Waiting(Staged(st, p, active), e.channel) == Waiting(st, e.channel) {
      OfChannelConcat(st.nextEpoch, [p], e.channel);
      OfChannelOne(p, e.channel);
      assert OfChannel(st.nextEpoch, e.channel) + [] == OfChannel(st.nextEpoch, e.channel);
    }
  }

  lemma RemembersEvicted(o: Opening, st: Stages, st': Stages, victim: Routed, overwritten: seq<Routed>, active: set<Id>, edges: set<RoutedEdge>)
    requires Remembers(o, st, overwritten, active, edges) && victim.edge.Async()
    requires Waiting(st', victim.edge.channel) == Tail(Waiting(st, victim.edge.channel), 1)
    requires forall d :: d != victim.edge.channel ==> Waiting(st', d) == Waiting(st, d)
    ensures Remembers(o, st', overwritten + [victim], active, edges)
  {
    hide OfChannel, Waiting, Pending;
    var since := overwritten[o.overwritten..];
    assert (overwritten + [victim])[o.overwritten..] == since + [victim];
    forall e | Leaves(e, edges, active)
      ensures Waiting(st', e.channel) == Tail(Pending(o.st, e.channel), EvictedSince(o, overwritten + [victim], e.channel))
    {
      OfChannelConcat(since, [victim], e.channel);
      OfChannelOne(victim, e.channel);
      TailTwice(Pending(o.st, e.channel), |OfChannel(since, e.channel)|);
    }
  }

  lemma TailTwice(q: seq<Routed>, n: nat)
    ensures Tail(Tail(q, n), 1) == Tail(q, n + 1)
  {
  }

  lemma RemembersElsewhere(o: Opening, st: Stages, st': Stages, overwritten: seq<Routed>, active: set<Id>, edges: set<RoutedEdge>)
    requires Remembers(o, st, overwritten, active, edges) && forall c :: Waiting(st', c) == Waiting(st, c)
    ensures Remembers(o, st', overwritten, active, edges)
  {
    hide Waiting, Pending, Tail, EvictedSince;
  }

  lemma WaitingEnded(st: Stages)
    ensures forall c :: Waiting(Ended(st), c) == Waiting(st, c)
  {
    forall c ensures Waiting(Ended(st), c) == Waiting(st, c) {
      OfChannelConcat(st.ready, st.nextEpoch, c);
      OfChannelNone([], c);
    }
  }

  /** Discarding an open region leaves on each channel what was pending when it was opened, less what was
      evicted since: the same queue again exactly when nothing was evicted there, or the queue was empty. */
  ghost predicate Restored(o: Opening, st: Stages, overwritten: seq<Routed>, active: set<Id>, edges: set<RoutedEdge>) {
    forall e :: Leaves(e, edges, active) ==>
      var was, gone := Pending(o.st, e.channel), EvictedSince(o, overwritten, e.channel);
      Pending(st, e.channel) == Tail(was, gone) && (Pending(st, e.channel) == was <==> gone == 0 || was == [])
  }

  lemma DiscardRestores(o: Opening, st: Stages, overwritten: seq<Routed>, active: set<Id>, edges: set<RoutedEdge>)
    requires Remembers(o, st, overwritten, active, edges)
    ensures Restored(o, st.(composite := []), overwritten, active, edges)
  {
    hide EvictedSince;
    forall e | Leaves(e, edges, active) ensures Pending(st.(composite := []), e.channel) == Waiting(st, e.channel) {
      OfChannelNone([], e.channel);
      assert Waiting(st, e.channel) + [] == Waiting(st, e.channel);
    }
    hide OfChannel, Pending, Waiting;
  }

  lemma StagedWithin(st: Stages, p: Routed, active: set<Id>, edges: set<RoutedEdge>)
    requires WellPlaced(st, active) && FromEdges(st, edges) && OneEdgeEach(edges) && p.edge in edges
    requires WithinLimits(st, edges) && RoomFor(st, p.edge)
    ensures WithinLimits(Staged(st, p, active), edges)
  {
    hide Pending, Staged, WellPlaced, FromEdges;
    forall e | e in edges && e.Limited() ensures |Pending(Staged(st, p, active), e.channel)| <= e.maxInflight {
      StagedPending(st, p, active, edges, e.channel);
      assert e.channel == p.edge.channel ==> e == p.edge;
    }
  }

  // Emptying stores.

  /** The outputs of a composite region are let through: the deferred ones wait for the next epoch. */
  function Released(st: Stages): Stages {
    st.(composite := [], nextEpoch := st.nextEpoch + Deferreds(st.composite))
  }

  function Ended(st: Stages): Stages {
    st.(ready := st.ready + st.nextEpoch, nextEpoch := [])
  }

  /** Letting a composite region's outputs through does not reorder any async channel. */
  lemma ReleasedPending(st: Stages, c: Id)
    ensures Pending(Released(st), c) == Pending(st, c)
  {
    hide OfChannel;
    DeferredsKeepOrder(st.composite, c);
    OfChannelConcat(st.nextEpoch, Deferreds(st.composite), c);
    OfChannelNone([], c);
  }

  lemma ReleasedKeeps(st: Stages, active: set<Id>, edges: set<RoutedEdge>)
    requires WellPlaced(st, active) && FromEdges(st, edges) && WithinLimits(st, edges)
    ensures WellPlaced(Released(st), {}) && FromEdges(Released(st), edges) && WithinLimits(Released(st), edges)
    ensures PendingAsync(Released(st)) == PendingAsync(st)
    ensures Held(st) == Held(Released(st)) + multiset(Immediates(st.composite))
    ensures AsyncCount(Immediates(st.composite)) == 0
  {
    hide Pending, Immediates, Deferreds, AsyncCount;
    SplitByKind(st.composite);
    DeferredsKeepOrder(st.composite, "");
    AsyncCountNone([]);
    AsyncCountNone(Immediates(st.composite));
    AsyncCountConcat(st.nextEpoch, Deferreds(st.composite));
    forall e | e in edges && e.Limited() ensures |Pending(Released(st), e.channel)| <= e.maxInflight {
      ReleasedPending(st, e.channel);
    }
  }

  lemma EndedPending(st: Stages, c: Id)
    ensures Pending(Ended(st), c) == Pending(st, c)
  {
    OfChannelConcat(st.ready, st.nextEpoch, c);
    OfChannelNone([], c);
    hide OfChannel;
  }

  lemma EndedKeeps(st: Stages, active: set<Id>, edges: set<RoutedEdge>)
    requires WellPlaced(st, active) && FromEdges(st, edges) && WithinLimits(st, edges)
    ensures WellPlaced(Ended(st), active) && FromEdges(Ended(st), edges) && WithinLimits(Ended(st), edges)
    ensures PendingAsync(Ended(st)) == PendingAsync(st) && Held(Ended(st)) == Held(st)
  {
    hide Pending, AsyncCount;
    AsyncCountNone([]);
    AsyncCountConcat(st.ready, st.nextEpoch);
    forall e | e in edges && e.Limited() ensures |Pending(Ended(st), e.channel)| <= e.maxInflight {
      EndedPending(st, e.channel);
    }
  }

  /** Emptying the ready store takes a prefix off every async channel's queue, the composite store a suffix. */
  lemma EmptiedPending(st: Stages, c: Id)
    ensures Pending(st, c) == OfChannel(st.ready, c) + Pending(st.(ready := []), c)
    ensures Pending(st, c) == Pending(st.(composite := []), c) + OfChannel(st.composite, c)
    ensures Pending(st.(immediate := []), c) == Pending(st, c)
  {
    OfChannelNone([], c);
    hide OfChannel;
  }

  lemma EmptiedKeeps(st: Stages, active: set<Id>, edges: set<RoutedEdge>)
    requires WellPlaced(st, active) && FromEdges(st, edges) && WithinLimits(st, edges)
    ensures WellPlaced(st.(ready := []), active) && FromEdges(st.(ready := []), edges) && WithinLimits(st.(ready := []), edges)
    ensures WellPlaced(st.(immediate := []), active) && FromEdges(st.(immediate := []), edges)
    ensures WithinLimits(st.(immediate := []), edges)
    ensures (forall a :: WellPlaced(st.(composite := []), a)) && FromEdges(st.(composite := []), edges)
    ensures WithinLimits(st.(composite := []), edges)
    ensures AsyncCount(st.immediate) == 0
  {
    AsyncCountNone(st.immediate);
    hide Pending, OfChannel, AsyncCount;
    forall e | e in edges && e.Limited()
      ensures |Pending(st.(ready := []), e.channel)| <= e.maxInflight
      ensures |Pending(st.(immediate := []), e.channel)| <= e.maxInflight
      ensures |Pending(st.(composite := []), e.channel)| <= e.maxInflight
    {
      EmptiedPending(st, e.channel);
    }
  }

  lemma EmptiedCounts(st: Stages)
    ensures PendingAsync(st) == PendingAsync(st.(ready := [])) + AsyncCount(st.ready)
    ensures PendingAsync(st) == PendingAsync(st.(composite := [])) + AsyncCount(st.composite)
    ensures PendingAsync(st) == PendingAsync(st.(immediate := []))
    ensures Held(st) == Held(st.(ready := [])) + multiset(st.ready)
    ensures Held(st) == Held(st.(immediate := [])) + multiset(st.immediate)
    ensures Held(st) == Held(st.(composite := [])) + multiset(st.composite)
  {
  }

  /** A batch leaves the stores and is committed, lost or discarded. */
  function Committed(l: Ledger, batch: seq<Routed>, accepted: bool): Ledger {
    if accepted then l.(committed := l.committed + batch) else l.(lost := l.lost + batch)
  }

  lemma CommittedBalance(st: Stages, st': Stages, batch: seq<Routed>, l: Ledger, accepted: bool)
    requires Balanced(st, l) && Held(st) == Held(st') + multiset(batch)
    ensures Balanced(st', Committed(l, batch, accepted))
    ensures AsyncCount(Committed(l, batch, accepted).lost) == AsyncCount(l.lost) + if accepted then 0 else AsyncCount(batch)
  {
    hide AsyncCount, Held;
    AsyncCountConcat(l.lost, batch);
    assert multiset(l.committed + batch) == multiset(l.committed) + multiset(batch);
    assert multiset(l.lost + batch) == multiset(l.lost) + multiset(batch);
    assert Settled(Committed(l, batch, accepted)) == Settled(l) + multiset(batch);
  }

  lemma DiscardedBalance(st: Stages, st': Stages, batch: seq<Routed>, l: Ledger)
    requires Balanced(st, l) && Held(st) == Held(st') + multiset(batch)
    ensures Balanced(st', l.(discarded := l.discarded + batch))
  {
    hide Held;
    assert multiset(l.discarded + batch) == multiset(l.discarded) + multiset(batch);
    assert Settled(l.(discarded := l.discarded + batch)) == Settled(l) + multiset(batch);
  }

  // What every operation keeps.

  /** The stores are placed, bounded and balanced, and an open region can be discarded. */
  ghost predicate Kept(st: Stages, l: Ledger, active: set<Id>, edges: set<RoutedEdge>, opening: Option<Opening>) {
    && WellPlaced(st, active) && FromEdges(st, edges) && WithinLimits(st, edges)
    && Balanced(st, l) && AllAsync(l.overwritten)
    && (opening.Some? ==> Remembers(opening.value, st, l.overwritten, active, edges))
  }

  lemma KeptEvicted(st: Stages, st': Stages, c: Id, victim: Routed, l: Ledger, active: set<Id>, edges: set<RoutedEdge>, opening: Option<Opening>)
    requires Kept(st, l, active, edges, opening) && Evicted(st, st', c, victim)
    ensures Kept(st', l.(overwritten := l.overwritten + [victim]), active, edges, opening)
  {
    hide WellPlaced, FromEdges, WithinLimits, Balanced, Remembers, Pending, PendingAsync, Held, Waiting, Tail;
    EvictedBalance(st, st', c, victim, l);
    EvictedKeeps(st, st', c, victim, active, edges);
    if opening.Some? {
      RemembersEvicted(opening.value, st, st', victim, l.overwritten, active, edges);
    }
  }

  lemma KeptStaged(st: Stages, p: Routed, l: Ledger, active: set<Id>, edges: set<RoutedEdge>, opening: Option<Opening>)
    requires Kept(st, l, active, edges, opening) && OneEdgeEach(edges) && p.edge in edges
    requires RoomFor(st, p.edge) && p.ticket == |l.staged|
    ensures Kept(Staged(st, p, active), l.(staged := l.staged + [p]), active, edges, opening)
  {
    hide WellPlaced, FromEdges, WithinLimits, Balanced, Remembers, Pending, Held, RoomFor, OneEdgeEach, Staged;
    StagedKeeps(st, p, active, edges);
    StagedWithin(st, p, active, edges);
    StagedBalance(st, p, active, l);
    if opening.Some? {
      RemembersStaged(opening.value, st, p, l.overwritten, active, edges);
    }
  }

  /** A region is opened: what an earlier one left in the composite store is lost. */
  lemma KeptOpened(st: Stages, l: Ledger, active: set<Id>, edges: set<RoutedEdge>, opening: Option<Opening>, active': set<Id>)
    requires Kept(st, l, active, edges, opening)
    ensures Kept(st.(composite := []), Committed(l, st.composite, false), active', edges,
                 Some(Opening(st.(composite := []), |l.overwritten|)))
    ensures AsyncCount(Committed(l, st.composite, false).lost) == AsyncCount(l.lost) + AsyncCount(st.composite)
  {
    hide WellPlaced, FromEdges, WithinLimits, Balanced, Remembers, Pending, Held, AsyncCount;
    EmptiedKeeps(st, active, edges);
    EmptiedCounts(st);
    CommittedBalance(st, st.(composite := []), st.composite, l, false);
    RemembersAtFirst(st.(composite := []), l.overwritten, active', edges);
  }

  lemma KeptDiscarded(st: Stages, l: Ledger, active: set<Id>, edges: set<RoutedEdge>, opening: Option<Opening>)
    requires Kept(st, l, active, edges, opening)
    ensures Kept(st.(composite := []), l.(discarded := l.discarded + st.composite), {}, edges, None)
    ensures opening.Some? ==> Restored(opening.value, st.(composite := []), l.overwritten, active, edges)
  {
    hide WellPlaced, FromEdges, WithinLimits, Balanced, Remembers, Restored, Pending, Held, AsyncCount;
    EmptiedKeeps(st, active, edges);
    EmptiedCounts(st);
    DiscardedBalance(st, st.(composite := []), st.composite, l);
    if opening.Some? {
      DiscardRestores(opening.value, st, l.overwritten, active, edges);
    }
  }

  lemma KeptReleased(st: Stages, l: Ledger, active: set<Id>, edges: set<RoutedEdge>, opening: Option<Opening>, accepted: bool)
    requires Kept(st, l, active, edges, opening)
    ensures Kept(Released(st), Committed(l, Immediates(st.composite), accepted), {}, edges, None)
    ensures PendingAsync(Released(st)) == PendingAsync(st)
    ensures AsyncCount(Committed(l, Immediates(st.composite), accepted).lost) == AsyncCount(l.lost)
  {
    hide WellPlaced, FromEdges, WithinLimits, Balanced, Remembers, Pending, PendingAsync, Held, AsyncCount, Released, Immediates;
    ReleasedKeeps(st, active, edges);
    CommittedBalance(st, Released(st), Immediates(st.composite), l, accepted);
  }

  lemma KeptReadied(st: Stages, l: Ledger, active: set<Id>, edges: set<RoutedEdge>, opening: Option<Opening>, accepted: bool)
    requires Kept(st, l, active, edges, opening)
    ensures Kept(st.(ready := []), Committed(l, st.ready, accepted), active, edges, None)
    ensures PendingAsync(st) == PendingAsync(st.(ready := [])) + AsyncCount(st.ready)
    ensures AsyncCount(Committed(l, st.ready, accepted).lost) == AsyncCount(l.lost) + if accepted then 0 else AsyncCount(st.ready)
  {
    hide WellPlaced, FromEdges, WithinLimits, Balanced, Remembers, Pending, PendingAsync, Held, AsyncCount;
    EmptiedKeeps(st, active, edges);
    EmptiedCounts(st);
    CommittedBalance(st, st.(ready := []), st.ready, l, accepted);
  }

  lemma KeptImmediate(st: Stages, l: Ledger, active: set<Id>, edges: set<RoutedEdge>, opening: Option<Opening>, accepted: bool)
    requires Kept(st, l, active, edges, opening)
    ensures Kept(st.(immediate := []), Committed(l, st.immediate, accepted), active, edges, opening)
    ensures PendingAsync(st.(immediate := [])) == PendingAsync(st)
    ensures AsyncCount(Committed(l, st.immediate, accepted).lost) == AsyncCount(l.lost)
    ensures forall p :: p in st.immediate ==> p.edge in edges
  {
    assert forall p :: p in st.immediate ==> p.edge in edges;
    hide WellPlaced, FromEdges, WithinLimits, Balanced, Remembers, Pending, PendingAsync, Held, AsyncCount;
    EmptiedKeeps(st, active, edges);
    EmptiedCounts(st);
    CommittedBalance(st, st.(immediate := []), st.immediate, l, accepted);
    if opening.Some? {
      RemembersElsewhere(opening.value, st, st.(immediate := []), l.overwritten, active, edges);
    }
  }

  lemma KeptEnded(st: Stages, l: Ledger, active: set<Id>, edges: set<RoutedEdge>, opening: Option<Opening>)
    requires Kept(st, l, active, edges, opening)
    ensures Kept(Ended(st), l, active, edges, opening) && PendingAsync(Ended(st)) == PendingAsync(st)
  {
    hide WellPlaced, FromEdges, WithinLimits, Remembers, Pending, PendingAsync, Held, AsyncCount, Ended, Waiting;
    EndedKeeps(st, active, edges);
    WaitingEnded(st);
    if opening.Some? {
      RemembersElsewhere(opening.value, st, Ended(st), l.overwritten, active, edges);
    }
  }
}
