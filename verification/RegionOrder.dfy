/** The priority-driven topological ordering of the regions of a compiled graph. */
module RegionOrder {
  import opened Ids

  /** The region graph: region ids in declaration order, the successors of each region as an ordered set,
      and the scheduling rank of each region. */
  datatype Regions = Regions(ids: seq<Id>, outgoing: map<Id, seq<Id>>, rank: map<Id, int>)

  ghost predicate WellFormed(g: Regions) {
    && Distinct(g.ids)
    && (forall r :: r in g.ids ==> r in g.outgoing && r in g.rank && Distinct(g.outgoing[r]))
    && (forall r, i, j :: r in g.ids && 0 <= i < j < |g.outgoing[r]| ==> Less(g.outgoing[r][i], g.outgoing[r][j]))
    && (forall r, t :: r in g.ids && t in g.outgoing[r] ==> t in g.ids)
  }

  ghost predicate Precedes(g: Regions, p: Id, r: Id)
  {
    p in g.ids && p in g.outgoing && r in g.outgoing[p]
  }

  ghost function Predecessors(g: Regions, r: Id): set<Id> {
    set p | p in g.ids && Precedes(g, p, r)
  }

  /** Every edge leads from a region to one declared earlier: the shape a condensation in reverse
      topological order has. */
  ghost predicate Descending(g: Regions) {
    forall i, j :: 0 <= i < |g.ids| && 0 <= j < |g.ids| && Precedes(g, g.ids[i], g.ids[j]) ==> j < i
  }

  // ----- what the order means

  /** r has not been emitted before position k, and all its predecessors have. */
  ghost predicate ReadyAt(g: Regions, order: seq<Id>, k: nat, r: Id)
    requires k <= |order|
  {
    r in g.ids && r !in order[..k] && forall p :: Precedes(g, p, r) ==> p in order[..k]
  }

  /** r became ready when the prefix of length k was reached. */
  ghost predicate ReleasedAt(g: Regions, order: seq<Id>, k: nat, r: Id)
    requires k <= |order|
  {
    && (forall p :: Precedes(g, p, r) ==> p in order[..k])
    && (k > 0 ==> Precedes(g, order[k - 1], r))
  }

  ghost predicate DeclaredBefore(g: Regions, a: Id, b: Id) {
    exists i, j :: 0 <= i < j < |g.ids| && g.ids[i] == a && g.ids[j] == b
  }

  /** Regions that become ready together arrive in declaration order at the start, in name order later. */
  ghost predicate ArrivedBefore(g: Regions, a: Id, ka: nat, b: Id, kb: nat) {
    ka < kb || (ka == kb && if ka == 0 then DeclaredBefore(g, a, b) else Less(a, b))
  }

  ghost predicate Preferred(g: Regions, a: Id, ka: nat, b: Id, kb: nat)
    requires a in g.rank && b in g.rank
  {
    g.rank[a] > g.rank[b] || (g.rank[a] == g.rank[b] && ArrivedBefore(g, a, ka, b, kb))
  }

  /** a is preferred to b, by rank first and by the moment each was released second. */
  ghost predicate PreferredAt(g: Regions, order: seq<Id>, k: nat, a: Id, b: Id)
    requires k <= |order|
  {
    a in g.rank && b in g.rank && exists ka, kb ::
      0 <= ka <= k && 0 <= kb <= k && ReleasedAt(g, order, ka, a) && ReleasedAt(g, order, kb, b) && Preferred(g, a, ka, b, kb)
  }

  /** At position k the region of highest rank among the ready ones is emitted, the earliest arrival first. */
  ghost predicate GreedyAt(g: Regions, order: seq<Id>, k: nat)
    requires k < |order|
  {
    && ReadyAt(g, order, k, order[k])
    && forall r :: ReadyAt(g, order, k, r) ==> r == order[k] || PreferredAt(g, order, k, order[k], r)
  }

  ghost predicate GreedyOrder(g: Regions, order: seq<Id>) {
    forall k :: 0 <= k < |order| ==> GreedyAt(g, order, k)
  }

  ghost predicate Topological(g: Regions, order: seq<Id>) {
    forall i, j {:trigger Precedes(g, order[i], order[j])} ::
      0 <= i < |order| && 0 <= j < |order| && Precedes(g, order[i], order[j]) ==> i < j
  }

  /** The whole promise about the emitted order: every region once, edges forward, greedy by priority. */
  ghost predicate IsPlan(g: Regions, order: seq<Id>) {
    Distinct(order) && Elements(order) == Elements(g.ids) && Topological(g, order) && GreedyOrder(g, order)
  }

  // ----- the ready queue

  /** Stable sorting by falling rank, as insertion of each element behind those of the same or higher rank. */
  function StableInsert(rank: map<Id, int>, s: seq<Id>, x: Id): seq<Id>
    requires x in rank && forall y :: y in s ==> y in rank
  {
    if s == [] || rank[s[|s| - 1]] >= rank[x] then s + [x]
    else StableInsert(rank, s[..|s| - 1], x) + [s[|s| - 1]]
  }

  function StableSort(rank: map<Id, int>, s: seq<Id>): (r: seq<Id>)
    requires forall y :: y in s ==> y in rank
    ensures forall y :: y in r <==> y in s
  {
    if s == [] then [] else
      var r := StableSort(rank, s[..|s| - 1]);
      InsertMembers(rank, r, s[|s| - 1]);
      StableInsert(rank, r, s[|s| - 1])
  }

  lemma {:induction false} InsertMembers(rank: map<Id, int>, s: seq<Id>, x: Id)
    requires x in rank && forall y :: y in s ==> y in rank
    ensures forall y :: y in StableInsert(rank, s, x) <==> y in s || y == x
  {
    if s == [] || rank[s[|s| - 1]] >= rank[x] {
    } else {
      InsertMembers(rank, s[..|s| - 1], x);
      assert s == s[..|s| - 1] + [s[|s| - 1]];
    }
  }

  /** The queue order: by rank, then by arrival. */
  ghost predicate QueueSorted(g: Regions, arrived: map<Id, nat>, s: seq<Id>) {
    && (forall x :: x in s ==> x in g.rank && x in arrived)
    && (forall i, j :: 0 <= i < j < |s| ==> Preferred(g, s[i], arrived[s[i]], s[j], arrived[s[j]]))
  }

  lemma {:induction false} InsertKeepsSorted(g: Regions, arrived: map<Id, nat>, s: seq<Id>, x: Id)
    requires QueueSorted(g, arrived, s) && x in g.rank && x in arrived
    requires forall y :: y in s ==> ArrivedBefore(g, y, arrived[y], x, arrived[x])
    ensures QueueSorted(g, arrived, StableInsert(g.rank, s, x))
  {
    hide ArrivedBefore;
    InsertMembers(g.rank, s, x);
    if s != [] {
      var last := s[|s| - 1];
      if g.rank[last] >= g.rank[x] {
        forall i | 0 <= i < |s| ensures Preferred(g, s[i], arrived[s[i]], x, arrived[x]) {
          assert s[i] in s;
          assert i < |s| - 1 ==> Preferred(g, s[i], arrived[s[i]], last, arrived[last]);
        }
      } else {
        var front := s[..|s| - 1];
        assert forall y :: y in front ==> y in s;
        InsertKeepsSorted(g, arrived, front, x);
        InsertMembers(g.rank, front, x);
        var t := StableInsert(g.rank, front, x);
        forall i | 0 <= i < |t| ensures Preferred(g, t[i], arrived[t[i]], last, arrived[last]) {
          assert t[i] in t;
          if t[i] != x {
            var k :| 0 <= k < |front| && front[k] == t[i];
            assert Preferred(g, s[k], arrived[s[k]], s[|s| - 1], arrived[s[|s| - 1]]);
          }
        }
      }
    }
  }

  /** Sorting a queue that is already sorted except for its last element inserts that element. */
  lemma {:induction false} SortOfSorted(rank: map<Id, int>, s: seq<Id>)
    requires forall y :: y in s ==> y in rank
    requires forall i, j :: 0 <= i < j < |s| ==> rank[s[i]] >= rank[s[j]]
    ensures StableSort(rank, s) == s
  {
    if s != [] {
      hide StableInsert;
      var front, x := s[..|s| - 1], s[|s| - 1];
      SortOfSorted(rank, front);
      assert s == front + [x];
      InsertBehind(rank, front, x);
    }
  }

  lemma InsertBehind(rank: map<Id, int>, s: seq<Id>, x: Id)
    requires x in rank && (forall y :: y in s ==> y in rank) && (s != [] ==> rank[s[|s| - 1]] >= rank[x])
    ensures StableInsert(rank, s, x) == s + [x]
  {
  }

  /** Sorting elements that arrived in the order they are listed sorts them by rank and arrival. */
  lemma {:induction false} SortOfArrivals(g: Regions, arrived: map<Id, nat>, s: seq<Id>)
    requires forall x :: x in s ==> x in g.rank && x in arrived
    requires forall i, j :: 0 <= i < j < |s| ==> ArrivedBefore(g, s[i], arrived[s[i]], s[j], arrived[s[j]])
    ensures QueueSorted(g, arrived, StableSort(g.rank, s))
  {
    hide ArrivedBefore;
    if s != [] {
      var front := s[..|s| - 1];
      SortOfArrivals(g, arrived, front);
      forall y | y in StableSort(g.rank, front)
        ensures ArrivedBefore(g, y, arrived[y], s[|s| - 1], arrived[s[|s| - 1]])
      {
        var k :| 0 <= k < |front| && front[k] == y;
        assert s[k] == y;
      }
      InsertKeepsSorted(g, arrived, StableSort(g.rank, front), s[|s| - 1]);
    }
  }

  lemma QueueDistinct(g: Regions, arrived: map<Id, nat>, s: seq<Id>)
    requires QueueSorted(g, arrived, s) && Distinct(g.ids)
    ensures Distinct(s)
  {
    forall i, j | 0 <= i < j < |s| ensures s[i] != s[j] {
      assert Preferred(g, s[i], arrived[s[i]], s[j], arrived[s[j]]);
      LessTrichotomy(s[i], s[j]);
    }
  }

  lemma PushSorted(g: Regions, arrived: map<Id, nat>, s: seq<Id>, x: Id)
    requires QueueSorted(g, arrived, s) && x in g.rank && x in arrived
    requires forall y :: y in s ==> ArrivedBefore(g, y, arrived[y], x, arrived[x])
    ensures QueueSorted(g, arrived, StableSort(g.rank, s + [x]))
  {
    SortOfSorted(g.rank, s);
    assert (s + [x])[..|s|] == s;
    InsertKeepsSorted(g, arrived, s, x);
  }

  // ----- the invariant of the ordering loop

  ghost function Waiting(g: Regions, order: seq<Id>, r: Id): set<Id> {
    Predecessors(g, r) - Elements(order)
  }

  /** todo holds the successors of the last emitted region that still count it. */
  ghost predicate CountsRight(g: Regions, order: seq<Id>, indegree: map<Id, nat>, todo: set<Id>) {
    forall r :: r in g.ids ==>
      r in indegree && indegree[r] == |Waiting(g, order, r)| + if r in todo then 1 else 0
  }

  ghost predicate ReadyExact(g: Regions, order: seq<Id>, ready: seq<Id>, todo: set<Id>) {
    forall r :: r in ready <==> r in g.ids && r !in order && Waiting(g, order, r) == {} && r !in todo
  }

  ghost predicate ArrivalsRight(g: Regions, order: seq<Id>, ready: seq<Id>, arrived: map<Id, nat>) {
    forall r :: r in ready ==> r in arrived && arrived[r] <= |order| && ReleasedAt(g, order, arrived[r], r)
  }

  ghost predicate Inv(g: Regions, order: seq<Id>, ready: seq<Id>, indegree: map<Id, nat>, arrived: map<Id, nat>, todo: set<Id>) {
    && Distinct(order) && (forall r :: r in order ==> r in g.ids)
    && CountsRight(g, order, indegree, todo) && ReadyExact(g, order, ready, todo)
    && ArrivalsRight(g, order, ready, arrived) && QueueSorted(g, arrived, ready)
    && GreedyOrder(g, order)
  }

  lemma GreedyGrows(g: Regions, order: seq<Id>, x: Id)
    requires GreedyOrder(g, order) && GreedyAt(g, order + [x], |order|)
    ensures GreedyOrder(g, order + [x])
  {
    var order' := order + [x];
    forall k | 0 <= k < |order'| ensures GreedyAt(g, order', k) {
      if k < |order| {
        GreedyPrefix(g, order, order', k);
      }
    }
  }

  /** Greediness at k only depends on the first k + 1 positions. */
  lemma GreedyPrefix(g: Regions, order: seq<Id>, order': seq<Id>, k: nat)
    requires k < |order| && k < |order'| && order[..k + 1] == order'[..k + 1] && GreedyAt(g, order, k)
    ensures GreedyAt(g, order', k)
  {
    PrefixAgrees(order, order', k);
    forall r | ReadyAt(g, order', k, r) ensures r == order'[k] || PreferredAt(g, order', k, order'[k], r) {
      assert ReadyAt(g, order, k, r);
      if r != order[k] {
        PreferredPrefix(g, order, order', k, order[k], r);
      }
    }
  }

  lemma PrefixAgrees(order: seq<Id>, order': seq<Id>, k: nat)
    requires k < |order| && k < |order'| && order[..k + 1] == order'[..k + 1]
    ensures order[..k] == order'[..k] && order[k] == order'[k]
  {
    assert order[..k] == order[..k + 1][..k] && order'[..k] == order'[..k + 1][..k];
    assert order[k] == order[..k + 1][k] && order'[k] == order'[..k + 1][k];
  }

  lemma ReleasedPrefix(g: Regions, order: seq<Id>, order': seq<Id>, k: nat, r: Id)
    requires k <= |order| && k <= |order'| && order[..k] == order'[..k] && ReleasedAt(g, order, k, r)
    ensures ReleasedAt(g, order', k, r)
  {
    if k > 0 {
      assert order[k - 1] == order[..k][k - 1] == order'[..k][k - 1] == order'[k - 1];
    }
  }

  lemma PreferredPrefix(g: Regions, order: seq<Id>, order': seq<Id>, k: nat, a: Id, b: Id)
    requires k <= |order| && k <= |order'| && order[..k] == order'[..k] && PreferredAt(g, order, k, a, b)
    ensures PreferredAt(g, order', k, a, b)
  {
    hide Preferred, ReleasedAt;
    var ka, kb :| 0 <= ka <= k && 0 <= kb <= k && ReleasedAt(g, order, ka, a) && ReleasedAt(g, order, kb, b) &&
      Preferred(g, a, ka, b, kb);
    assert order[..ka] == order[..k][..ka] == order'[..ka] && order[..kb] == order[..k][..kb] == order'[..kb];
    ReleasedPrefix(g, order, order', ka, a);
    ReleasedPrefix(g, order, order', kb, b);
  }

  lemma ReadyMeansReady(g: Regions, order: seq<Id>, order': seq<Id>, r: Id)
    requires order <= order'
    ensures ReadyAt(g, order', |order|, r) <==> r in g.ids && r !in order && Waiting(g, order, r) == {}
  {
    assert order'[..|order|] == order;
    if Waiting(g, order, r) == {} {
      forall p | Precedes(g, p, r) ensures p in order {
        assert p in Waiting(g, order, r) || p in Elements(order);
      }
    }
  }

  /** Emitting the head of the queue is greedy. */
  lemma EmitIsGreedy(g: Regions, order: seq<Id>, ready: seq<Id>, indegree: map<Id, nat>, arrived: map<Id, nat>)
    requires Inv(g, order, ready, indegree, arrived, {}) && ready != []
    ensures GreedyOrder(g, order + [ready[0]])
  {
    hide GreedyOrder, CountsRight, Waiting, Preferred, Distinct, ReleasedAt;
    var x := ready[0];
    var order' := order + [x];
    assert x in ready;
    ReadyMeansReady(g, order, order', x);
    forall r | ReadyAt(g, order', |order|, r) ensures r == x || PreferredAt(g, order', |order|, x, r) {
      ReadyMeansReady(g, order, order', r);
      var i :| 0 <= i < |ready| && ready[i] == r;
      if i > 0 {
        assert Preferred(g, x, arrived[x], r, arrived[r]);
        assert ReleasedAt(g, order, arrived[x], x) && ReleasedAt(g, order, arrived[r], r);
        ReleasedPrefix(g, order, order', arrived[x], x);
        ReleasedPrefix(g, order, order', arrived[r], r);
      }
    }
    GreedyGrows(g, order, x);
  }

  lemma WaitingAfter(g: Regions, order: seq<Id>, x: Id, r: Id)
    requires x in g.ids && x in g.outgoing && x !in order
    ensures var w, w' := Waiting(g, order, r), Waiting(g, order + [x], r);
      if r in g.outgoing[x] then |w| == |w'| + 1 else w == w'
  {
    var w, w' := Waiting(g, order, r), Waiting(g, order + [x], r);
    assert Elements(order + [x]) == Elements(order) + {x};
    assert Precedes(g, x, r) <==> r in g.outgoing[x];
    hide Precedes;
    if r in g.outgoing[x] {
      assert w == w' + {x};
    } else {
      assert w == w';
    }
  }

  lemma EmitCounts(g: Regions, order: seq<Id>, indegree: map<Id, nat>, x: Id)
    requires WellFormed(g) && CountsRight(g, order, indegree, {}) && x in g.ids && x !in order
    ensures CountsRight(g, order + [x], indegree, Elements(g.outgoing[x]))
  {
    hide Waiting;
    forall r | r in g.ids
      ensures indegree[r] == |Waiting(g, order + [x], r)| + if r in g.outgoing[x] then 1 else 0
    {
      WaitingAfter(g, order, x, r);
    }
  }

  lemma EmitReady(g: Regions, order: seq<Id>, ready: seq<Id>)
    requires WellFormed(g) && ReadyExact(g, order, ready, {}) && ready != [] && Distinct(ready)
    ensures ReadyExact(g, order + [ready[0]], ready[1..], Elements(g.outgoing[ready[0]]))
  {
    var x := ready[0];
    var order' := order + [x];
    assert x in ready && ready == [x] + ready[1..];
    assert Elements(order') == Elements(order) + {x};
    forall r ensures r in ready[1..] <==>
      r in g.ids && r !in order' && Waiting(g, order', r) == {} && r !in g.outgoing[x]
    {
      if r in g.outgoing[x] {
        assert x in Waiting(g, order, r);
      } else {
        assert Waiting(g, order, r) == Waiting(g, order', r);
      }
    }
  }

  lemma EmitArrivals(g: Regions, order: seq<Id>, ready: seq<Id>, arrived: map<Id, nat>)
    requires ArrivalsRight(g, order, ready, arrived) && QueueSorted(g, arrived, ready) && ready != []
    ensures ArrivalsRight(g, order + [ready[0]], ready[1..], arrived) && QueueSorted(g, arrived, ready[1..])
    ensures forall r :: r in ready[1..] ==> r in arrived && arrived[r] <= |order|
  {
    hide ReleasedAt, Preferred;
    forall r | r in ready[1..] ensures r in ready {
    }
    forall r | r in ready[1..] ensures ReleasedAt(g, order + [ready[0]], arrived[r], r) {
      ReleasedPrefix(g, order, order + [ready[0]], arrived[r], r);
    }
  }

  lemma HeadReady(g: Regions, order: seq<Id>, ready: seq<Id>, todo: set<Id>)
    requires ReadyExact(g, order, ready, todo) && ready != []
    ensures ready[0] in g.ids && ready[0] !in order
  {
    assert ready[0] in ready;
  }

  lemma EmitKeepsInv(g: Regions, order: seq<Id>, ready: seq<Id>, indegree: map<Id, nat>, arrived: map<Id, nat>)
    requires WellFormed(g) && Inv(g, order, ready, indegree, arrived, {}) && ready != []
    ensures ready[0] in g.ids && ready[0] !in order
    ensures Inv(g, order + [ready[0]], ready[1..], indegree, arrived, Elements(g.outgoing[ready[0]]))
    ensures forall r :: r in ready[1..] ==> arrived[r] <= |order|
  {
    hide GreedyOrder, CountsRight, ReadyExact, ArrivalsRight, QueueSorted;
    HeadReady(g, order, ready, {});
    QueueDistinct(g, arrived, ready);
    EmitIsGreedy(g, order, ready, indegree, arrived);
    EmitCounts(g, order, indegree, ready[0]);
    EmitReady(g, order, ready);
    EmitArrivals(g, order, ready, arrived);
  }

  /** Counting down one successor of the region just emitted; it becomes ready when nothing else is awaited. */
  lemma CountDown(g: Regions, order: seq<Id>, indegree: map<Id, nat>, todo: set<Id>, x: Id)
    requires CountsRight(g, order, indegree, todo) && x in todo && x in g.ids
    ensures x in indegree && indegree[x] > 0
    ensures CountsRight(g, order, indegree[x := indegree[x] - 1], todo - {x})
    ensures indegree[x] - 1 == 0 <==> Waiting(g, order, x) == {}
  {
    assert indegree[x] == |Waiting(g, order, x)| + 1;
  }

  lemma StillWaiting(g: Regions, order: seq<Id>, ready: seq<Id>, todo: set<Id>, x: Id)
    requires ReadyExact(g, order, ready, todo) && Waiting(g, order, x) != {}
    ensures ReadyExact(g, order, ready, todo - {x})
  {
    hide Waiting;
  }

  lemma NowReady(g: Regions, order: seq<Id>, ready: seq<Id>, todo: set<Id>, x: Id)
    requires ReadyExact(g, order, ready, todo) && Waiting(g, order, x) == {} && x in todo && x in g.ids && x !in order
    requires forall y :: y in ready ==> y in g.rank
    requires x in g.rank
    ensures ReadyExact(g, order, StableSort(g.rank, ready + [x]), todo - {x})
  {
    hide Waiting, StableSort;
  }

  lemma ReleasedNow(g: Regions, order: seq<Id>, x: Id)
    requires order != [] && Precedes(g, order[|order| - 1], x) && Waiting(g, order, x) == {}
    ensures ReleasedAt(g, order, |order|, x)
  {
    forall p | Precedes(g, p, x) ensures p in order[..|order|] {
      assert p in Waiting(g, order, x) || p in Elements(order);
    }
  }

  lemma PushReleased(g: Regions, order: seq<Id>, ready: seq<Id>, arrived: map<Id, nat>, x: Id)
    requires ArrivalsRight(g, order, ready, arrived) && QueueSorted(g, arrived, ready)
    requires x in g.rank && x !in ready && order != [] && ReleasedAt(g, order, |order|, x)
    requires forall r :: r in ready && arrived[r] == |order| ==> Less(r, x)
    ensures var arrived' := arrived[x := |order|]; var ready' := StableSort(g.rank, ready + [x]);
      ArrivalsRight(g, order, ready', arrived') && QueueSorted(g, arrived', ready')
  {
    hide ReleasedAt, Less;
    var arrived' := arrived[x := |order|];
    assert QueueSorted(g, arrived', ready) by {
      hide Preferred;
      assert forall r :: r in ready ==> arrived'[r] == arrived[r];
      assert forall i :: 0 <= i < |ready| ==> ready[i] in ready;
    }
    PushSorted(g, arrived', ready, x);
  }

  /** One successor of the region just emitted. */
  lemma ScanKeepsInv(g: Regions, order: seq<Id>, ready: seq<Id>, indegree: map<Id, nat>, arrived: map<Id, nat>,
                     todo: set<Id>, x: Id)
    requires WellFormed(g) && Inv(g, order, ready, indegree, arrived, todo)
    requires x in todo && order != [] && Precedes(g, order[|order| - 1], x) && x !in order
    requires forall r :: r in ready && arrived[r] == |order| ==> Less(r, x)
    ensures x in g.ids && x in g.rank && x in indegree && indegree[x] > 0
    ensures indegree[x] > 1 ==> Inv(g, order, ready, indegree[x := indegree[x] - 1], arrived, todo - {x})
    ensures indegree[x] == 1 ==>
      Inv(g, order, StableSort(g.rank, ready + [x]), indegree[x := 0], arrived[x := |order|], todo - {x})
  {
    hide GreedyOrder, CountsRight, ReadyExact, ArrivalsRight, ReleasedAt, Waiting, StableSort, Less;
    assert x in g.ids && x in g.rank by { assert order[|order| - 1] in g.ids; }
    CountDown(g, order, indegree, todo, x);
    if indegree[x] > 1 {
      StillWaiting(g, order, ready, todo, x);
    } else {
      NowReady(g, order, ready, todo, x);
      ReleasedNow(g, order, x);
      NotInQueue(g, order, ready, todo, x);
      PushReleased(g, order, ready, arrived, x);
    }
  }

  lemma NotInQueue(g: Regions, order: seq<Id>, ready: seq<Id>, todo: set<Id>, x: Id)
    requires ReadyExact(g, order, ready, todo) && x in todo
    ensures x !in ready
  {
  }

  lemma StartReady(g: Regions, indegree: map<Id, nat>, sources: seq<Id>)
    requires CountsRight(g, [], indegree, {})
    requires forall r :: r in sources <==> r in g.ids && r in indegree && indegree[r] == 0
    ensures ReadyExact(g, [], sources, {})
    ensures forall r :: r in sources ==> ReleasedAt(g, [], 0, r)
  {
    forall r | r in g.ids ensures indegree[r] == 0 <==> Waiting(g, [], r) == {} {
      assert indegree[r] == |Waiting(g, [], r)|;
    }
    forall r | r in sources ensures ReleasedAt(g, [], 0, r) {
      assert forall p :: Precedes(g, p, r) ==> p in Waiting(g, [], r);
    }
  }

  /** The regions that are ready at the start, in declaration order, then sorted. */
  lemma StartInv(g: Regions, indegree: map<Id, nat>, sources: seq<Id>, arrived: map<Id, nat>)
    requires WellFormed(g) && CountsRight(g, [], indegree, {})
    requires forall r :: r in sources <==> r in g.ids && r in indegree && indegree[r] == 0
    requires forall i, j :: 0 <= i < j < |sources| ==> DeclaredBefore(g, sources[i], sources[j])
    requires arrived == map r | r in sources :: 0
    ensures forall x :: x in sources ==> x in g.rank
    ensures Inv(g, [], StableSort(g.rank, sources), indegree, arrived, {})
  {
    hide *;
    StartReady(g, indegree, sources);
    StartArrived(g, sources, arrived);
    SortOfArrivals(g, arrived, sources);
    StartInvParts(g, indegree, sources, StableSort(g.rank, sources), arrived);
  }

  lemma StartArrived(g: Regions, sources: seq<Id>, arrived: map<Id, nat>)
    requires WellFormed(g) && (forall r :: r in sources ==> r in g.ids) && arrived == map r | r in sources :: 0
    requires forall i, j :: 0 <= i < j < |sources| ==> DeclaredBefore(g, sources[i], sources[j])
    ensures forall x :: x in sources ==> x in g.rank && x in arrived && arrived[x] == 0
    ensures forall i, j :: 0 <= i < j < |sources| ==> ArrivedBefore(g, sources[i], arrived[sources[i]], sources[j], arrived[sources[j]])
  {
    hide DeclaredBefore;
  }

  lemma StartInvParts(g: Regions, indegree: map<Id, nat>, sources: seq<Id>, ready: seq<Id>, arrived: map<Id, nat>)
    requires CountsRight(g, [], indegree, {}) && ReadyExact(g, [], sources, {})
    requires forall r :: r in sources ==> ReleasedAt(g, [], 0, r) && r in arrived && arrived[r] == 0
    requires (forall r :: r in ready <==> r in sources) && QueueSorted(g, arrived, ready)
    ensures Inv(g, [], ready, indegree, arrived, {})
  {
    hide CountsRight, ReleasedAt, Waiting, QueueSorted;
  }

  /** A successor of the region emitted last has not been emitted itself. */
  lemma SuccessorOpen(g: Regions, order: seq<Id>, x: Id)
    requires GreedyOrder(g, order) && Distinct(order) && order != [] && Precedes(g, order[|order| - 1], x)
    ensures x !in order
  {
    var last := order[|order| - 1];
    forall k | 0 <= k < |order| ensures order[k] != x {
      assert GreedyAt(g, order, k);
      assert last !in order[..k];
    }
  }

  lemma DropOne(outs: seq<Id>, k: nat)
    requires Distinct(outs) && k < |outs|
    ensures Elements(outs[k + 1..]) == Elements(outs[k..]) - {outs[k]} && outs[k] in outs[k..]
  {
    assert outs[k..] == [outs[k]] + outs[k + 1..];
  }

  // ----- the loop

  /** A group of regions each of which has a predecessor in the group: none of them can ever become ready. */
  ghost predicate HasCycle(g: Regions) {
    exists s: set<Id> :: s != {} && Blocked(g, s)
  }

  ghost predicate Blocked(g: Regions, s: set<Id>) {
    forall r :: r in s ==> r in g.ids && exists p :: p in s && Precedes(g, p, r)
  }

  lemma DeclaredOrder(g: Regions, s: seq<Id>, at: seq<nat>)
    requires |at| == |s| && forall a :: 0 <= a < |at| ==> at[a] < |g.ids| && g.ids[at[a]] == s[a]
    requires forall a, b :: 0 <= a < b < |at| ==> at[a] < at[b]
    ensures forall i, j :: 0 <= i < j < |s| ==> DeclaredBefore(g, s[i], s[j])
  {
  }

  lemma StuckIsBlocked(g: Regions, order: seq<Id>)
    requires ReadyExact(g, order, [], {})
    ensures Blocked(g, Elements(g.ids) - Elements(order))
  {
    hide Precedes;
    forall r | r in Elements(g.ids) - Elements(order)
      ensures exists p :: p in Elements(g.ids) - Elements(order) && Precedes(g, p, r)
    {
      var p :| p in Waiting(g, order, r);
    }
  }

  /** Emits regions until no region is ready. */
  method OrderRegions(g: Regions, indegrees: map<Id, nat>) returns (order: seq<Id>)
    requires WellFormed(g) && CountsRight(g, [], indegrees, {})
    ensures Distinct(order) && Elements(order) <= Elements(g.ids) && GreedyOrder(g, order)
    ensures Blocked(g, Elements(g.ids) - Elements(order))
  {
    hide CountsRight, ReadyExact, ArrivalsRight, GreedyOrder, StableSort, Waiting, Blocked, DeclaredBefore, Preferred;
    var indegree := indegrees;
    var ready := [];
    ghost var at: seq<nat> := [];
    for i := 0 to |g.ids|
      invariant forall r :: r in ready <==> r in g.ids[..i] && r in indegree && indegree[r] == 0
      invariant |at| == |ready| && forall a :: 0 <= a < |at| ==> at[a] < i && g.ids[at[a]] == ready[a]
      invariant forall a, b :: 0 <= a < b < |at| ==> at[a] < at[b]
    {
      var region := g.ids[i];
      if region in indegree && indegree[region] == 0 {
        ready := ready + [region];
        at := at + [i];
      }
    }
    assert g.ids[..|g.ids|] == g.ids;
    DeclaredOrder(g, ready, at);
    ghost var arrived: map<Id, nat> := map r | r in ready :: 0;
    StartInv(g, indegree, ready, arrived);
    ready := StableSort(g.rank, ready);
    order := [];
    while ready != []
      invariant Inv(g, order, ready, indegree, arrived, {})
      decreases Elements(g.ids) - Elements(order)
    {
      var region := ready[0];
      EmitKeepsInv(g, order, ready, indegree, arrived);
      assert ready[0] in Elements(g.ids) - Elements(order);
      ready := ready[1..];
      order := order + [region];
      var outs := g.outgoing[region];
      for k := 0 to |outs|
        invariant Inv(g, order, ready, indegree, arrived, Elements(outs[k..]))
        invariant forall r :: r in ready && arrived[r] == |order| ==> r in outs[..k]
      {
        var next := outs[k];
        DropOne(outs, k);
        SuccessorOpen(g, order, next);
        ScanKeepsInv(g, order, ready, indegree, arrived, Elements(outs[k..]), next);
        if indegree[next] > 0 {
          indegree := indegree[next := indegree[next] - 1];
        }
        if indegree[next] == 0 {
          arrived := arrived[next := |order|];
          ready := StableSort(g.rank, ready + [next]);
        }
      }
      assert Elements(outs[|outs|..]) == {};
    }
    StuckIsBlocked(g, order);
  }

  // ----- consequences

  /** A greedy order emits every region after its predecessors. */
  lemma GreedyIsTopological(g: Regions, order: seq<Id>)
    requires GreedyOrder(g, order) && Distinct(order)
    ensures Topological(g, order)
  {
    forall i, j | 0 <= i < |order| && 0 <= j < |order| && Precedes(g, order[i], order[j]) ensures i < j {
      assert GreedyAt(g, order, j);
      assert order[i] in order[..j];
    }
  }

  /** Edges that only lead to earlier declarations cannot form a cycle. */
  lemma DescendingHasNoCycle(g: Regions)
    requires WellFormed(g) && Descending(g)
    ensures !HasCycle(g)
  {
    hide WellFormed, Descending;
    forall s: set<Id> | Blocked(g, s) ensures s == {} {
      forall i | 0 <= i < |g.ids| ensures g.ids[i] !in s {
        LaterUnblocked(g, s, i);
      }
      assert forall r :: r !in s;
    }
  }

  lemma {:induction false} LaterUnblocked(g: Regions, s: set<Id>, i: nat)
    requires WellFormed(g) && Descending(g) && Blocked(g, s) && i < |g.ids|
    ensures g.ids[i] !in s
    decreases |g.ids| - i
  {
    hide WellFormed, Precedes;
    forall p | Precedes(g, p, g.ids[i]) ensures p !in s {
      PredecessorKnown(g, p, g.ids[i]);
      assert p in g.ids;
      var j :| 0 <= j < |g.ids| && g.ids[j] == p;
      LaterUnblocked(g, s, j);
    }
  }

  /** The loop emits every region exactly when the region graph has no cycle, and then the order is a plan. */
  lemma DrainsIffAcyclic(g: Regions, order: seq<Id>)
    requires WellFormed(g) && Distinct(order) && Elements(order) <= Elements(g.ids) && GreedyOrder(g, order)
    requires Blocked(g, Elements(g.ids) - Elements(order))
    ensures |order| == |g.ids| <==> !HasCycle(g)
    ensures |order| == |g.ids| ==> IsPlan(g, order)
  {
    hide GreedyOrder, Precedes;
    DistinctSize(order);
    DistinctSize(g.ids);
    GreedyIsTopological(g, order);
    if |order| == |g.ids| {
      SubsetSameSize(Elements(order), Elements(g.ids));
      PlanHasNoCycle(g, order);
    } else {
      assert Elements(g.ids) - Elements(order) != {} by {
        assert Elements(g.ids) != Elements(order);
      }
    }
  }

  lemma SubsetSameSize(a: set<Id>, b: set<Id>)
    requires a <= b && |a| == |b|
    ensures a == b
  {
    assert |b - a| == |b| - |a|;
  }

  lemma PredecessorKnown(g: Regions, p: Id, r: Id)
    requires Precedes(g, p, r)
    ensures p in Elements(g.ids)
  {
  }

  lemma PlanHasNoCycle(g: Regions, order: seq<Id>)
    requires Topological(g, order) && Elements(order) == Elements(g.ids)
    ensures !HasCycle(g)
  {
    hide Precedes, Topological;
    forall s: set<Id> | Blocked(g, s) ensures s == {} {
      forall k | 0 <= k < |order| ensures order[k] !in s {
        EmittedUnblocked(g, order, s, k);
      }
      assert forall r :: r in g.ids ==> r in Elements(order);
      assert forall r :: r !in s;
    }
  }

  lemma {:induction false} EmittedUnblocked(g: Regions, order: seq<Id>, s: set<Id>, k: nat)
    requires Topological(g, order) && Elements(order) == Elements(g.ids) && Blocked(g, s) && k < |order|
    ensures order[k] !in s
  {
    hide Precedes;
    forall p | Precedes(g, p, order[k]) ensures p !in s {
      PredecessorKnown(g, p, order[k]);
      assert p in Elements(order);
      var j :| 0 <= j < |order| && order[j] == p;
      EmittedUnblocked(g, order, s, j);
    }
  }

  /** There is only one plan: priority, readiness and arrival leave no choice. */
  lemma {:induction false} PlanUnique(g: Regions, a: seq<Id>, b: seq<Id>, k: nat)
    requires WellFormed(g) && IsPlan(g, a) && IsPlan(g, b) && k <= |a| && k <= |b|
    ensures a[..k] == b[..k]
    decreases k
  {
    if k > 0 {
      PlanUnique(g, a, b, k - 1);
      var n := k - 1;
      assert a[..k] == a[..n] + [a[n]] && b[..k] == b[..n] + [b[n]];
      assert GreedyAt(g, a, n) && GreedyAt(g, b, n);
      assert ReadyAt(g, a, n, b[n]) && ReadyAt(g, b, n, a[n]);
      if a[n] != b[n] {
        PreferredPrefix(g, b, a, n, b[n], a[n]);
        PreferenceAsymmetric(g, a, n, a[n], b[n]);
      }
    }
  }

  lemma ReleaseNotLater(g: Regions, order: seq<Id>, i: nat, j: nat, r: Id)
    requires Distinct(order) && i <= |order| && j <= |order|
    requires ReleasedAt(g, order, i, r) && ReleasedAt(g, order, j, r)
    ensures j <= i
  {
    if j > 0 {
      assert order[j - 1] in order[..i];
      var m :| 0 <= m < i && order[m] == order[j - 1];
    }
  }

  lemma PreferredRank(g: Regions, order: seq<Id>, k: nat, a: Id, b: Id)
    requires k <= |order| && PreferredAt(g, order, k, a, b) && a in g.rank && b in g.rank
    ensures g.rank[a] >= g.rank[b]
  {
  }

  lemma PreferenceAsymmetric(g: Regions, order: seq<Id>, k: nat, a: Id, b: Id)
    requires Distinct(g.ids) && Distinct(order) && k <= |order| && PreferredAt(g, order, k, a, b)
    ensures !PreferredAt(g, order, k, b, a)
  {
    hide ReleasedAt, Less;
    var ka, kb :| 0 <= ka <= k && 0 <= kb <= k && ReleasedAt(g, order, ka, a) && ReleasedAt(g, order, kb, b) &&
      Preferred(g, a, ka, b, kb);
    LessTrichotomy(a, b);
    forall la, lb | 0 <= la <= k && 0 <= lb <= k && ReleasedAt(g, order, la, a) && ReleasedAt(g, order, lb, b)
      ensures !Preferred(g, b, lb, a, la)
    {
      ReleaseNotLater(g, order, ka, la, a);
      ReleaseNotLater(g, order, la, ka, a);
      ReleaseNotLater(g, order, kb, lb, b);
      ReleaseNotLater(g, order, lb, kb, b);
    }
  }
}
