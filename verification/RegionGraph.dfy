/** The graph between regions that the immediate edges induce. */
module RegionGraph {
  import opened Ids
  import opened Digraph
  import opened GraphSpecs
  import opened Scc
  import opened RegionOrder

  /** index maps every component to the position of its scc. */
  ghost predicate IndexRight(sccs: seq<seq<Id>>, index: map<Id, nat>) {
    && (forall v :: v in index ==> index[v] < |sccs| && v in sccs[index[v]])
    && (forall i, v :: 0 <= i < |sccs| && v in sccs[i] ==> v in index && index[v] == i)
  }

  method IndexSccs(sccs: seq<seq<Id>>, ghost nodes: set<Id>) returns (index: map<Id, nat>)
    requires IsPartition(nodes, sccs)
    ensures IndexRight(sccs, index)
  {
    hide Sorted, Distinct;
    index := map[];
    for i := 0 to |sccs|
      invariant forall v :: v in index ==> index[v] < i && v in sccs[index[v]]
      invariant forall k, v :: 0 <= k < i && v in sccs[k] ==> v in index && index[v] == k
    {
      var scc := sccs[i];
      for n := 0 to |scc|
        invariant forall v :: v in index ==> index[v] <= i && v in sccs[index[v]]
        invariant forall k, v :: 0 <= k < i && v in sccs[k] ==> v in index && index[v] == k
        invariant forall v :: v in scc[..n] ==> v in index && index[v] == i
      {
        assert scc[n] in sccs[i];
        index := index[scc[n] := i];
      }
      assert scc[..|scc|] == scc;
    }
  }

  ghost predicate Ascending(s: seq<Id>) {
    Sorted(s) && Distinct(s)
  }

  lemma InsertAscending(x: Id, s: seq<Id>)
    requires Ascending(s) && x !in s
    ensures Ascending(Insert(x, s)) && (forall y :: y in Insert(x, s) <==> y == x || y in s)
    ensures |Insert(x, s)| == |s| + 1
  {
    hide Less, Sorted;
    InsertSorted(x, s);
    InsertContents(x, s);
    assert |multiset(Insert(x, s))| == |s| + 1;
    assert multiset([x] + s) == multiset(Insert(x, s));
    MultisetDistinct([x] + s, Insert(x, s));
  }

  ghost predicate Crosses(e: EdgeSpec, index: map<Id, nat>, i: int, j: int) {
    && Joins(e, ComponentOf(e.from), ComponentOf(e.to)) && ComponentOf(e.from) in index && ComponentOf(e.to) in index
    && index[ComponentOf(e.from)] == i && index[ComponentOf(e.to)] == j
  }

  /** Some immediate edge leads from the i-th region to the j-th, another one. */
  ghost predicate RegionEdge(edges: seq<EdgeSpec>, index: map<Id, nat>, i: int, j: int) {
    i != j && exists e :: e in edges && Crosses(e, index, i, j)
  }

  datatype Links = Links(outgoing: map<Id, seq<Id>>, incoming: map<Id, seq<Id>>, indegree: map<Id, nat>)

  /** The sets are ascending, hold region ids only, and count every incoming neighbour once. */
  ghost predicate LinksShaped(ids: seq<Id>, l: Links) {
    && l.outgoing.Keys == Elements(ids) && l.incoming.Keys == Elements(ids) && l.indegree.Keys == Elements(ids)
    && (forall r :: r in ids ==> Ascending(l.outgoing[r]) && Ascending(l.incoming[r]))
    && (forall r, t :: r in ids && t in l.outgoing[r] ==> t in ids)
    && (forall r, t :: r in ids && t in l.incoming[r] ==> t in ids)
    && (forall r :: r in ids ==> l.indegree[r] == |l.incoming[r]|)
  }

  ghost predicate LinksExact(edges: seq<EdgeSpec>, index: map<Id, nat>, ids: seq<Id>, l: Links)
    requires LinksShaped(ids, l)
  {
    forall i, j {:trigger ids[i], ids[j]} :: 0 <= i < |ids| && 0 <= j < |ids| ==>
      (ids[j] in l.outgoing[ids[i]] <==> RegionEdge(edges, index, i, j)) &&
      (ids[i] in l.incoming[ids[j]] <==> RegionEdge(edges, index, i, j))
  }

  ghost predicate LinksRight(edges: seq<EdgeSpec>, index: map<Id, nat>, ids: seq<Id>, l: Links) {
    LinksShaped(ids, l) && LinksExact(edges, index, ids, l)
  }

  function Linked(l: Links, from: Id, to: Id): Links
    requires from in l.outgoing && to in l.incoming && to in l.indegree
  {
    if to in l.outgoing[from] then l
    else Links(l.outgoing[from := Insert(to, l.outgoing[from])], l.incoming[to := Insert(from, l.incoming[to])],
      l.indegree[to := l.indegree[to] + 1])
  }

  lemma LinkedMembers(ids: seq<Id>, l: Links, from: Id, to: Id)
    requires LinksShaped(ids, l) && from in ids && to in ids
    requires to in l.outgoing[from] <==> from in l.incoming[to]
    ensures from in l.outgoing && to in l.incoming && to in l.indegree
    ensures var l' := Linked(l, from, to);
      && l'.outgoing.Keys == l'.incoming.Keys == l'.indegree.Keys == Elements(ids)
      && (forall r, t :: r in ids ==> (t in l'.outgoing[r] <==> t in l.outgoing[r] || (r == from && t == to)))
      && (forall r, t :: r in ids ==> (t in l'.incoming[r] <==> t in l.incoming[r] || (r == to && t == from)))
  {
    hide Ascending;
    if to !in l.outgoing[from] {
      assert Ascending(l.outgoing[from]) && Ascending(l.incoming[to]);
      InsertAscending(to, l.outgoing[from]);
      InsertAscending(from, l.incoming[to]);
    }
  }

  lemma LinkedShaped(ids: seq<Id>, l: Links, from: Id, to: Id)
    requires LinksShaped(ids, l) && from in ids && to in ids
    requires to in l.outgoing[from] <==> from in l.incoming[to]
    ensures from in l.outgoing && to in l.incoming && to in l.indegree
    ensures LinksShaped(ids, Linked(l, from, to))
  {
    hide Ascending;
    LinkedMembers(ids, l, from, to);
    if to !in l.outgoing[from] {
      InsertAscending(to, l.outgoing[from]);
      InsertAscending(from, l.incoming[to]);
      var l' := Linked(l, from, to);
      forall r | r in ids
        ensures Ascending(l'.outgoing[r]) && Ascending(l'.incoming[r]) && l'.indegree[r] == |l'.incoming[r]|
      {
        assert Ascending(l.outgoing[r]) && Ascending(l.incoming[r]) && l.indegree[r] == |l.incoming[r]|;
      }
    }
  }

  lemma LinkedExact(edges: seq<EdgeSpec>, e: EdgeSpec, index: map<Id, nat>, ids: seq<Id>, l: Links, i: nat, j: nat)
    requires LinksRight(edges, index, ids, l) && Distinct(ids) && i < |ids| && j < |ids| && i != j && Crosses(e, index, i, j)
    ensures ids[i] in l.outgoing && ids[j] in l.incoming && ids[j] in l.indegree
    ensures LinksRight(edges + [e], index, ids, Linked(l, ids[i], ids[j]))
  {
    hide Ascending, LinksShaped, Crosses, Linked, RegionEdge;
    assert ids[i] in ids && ids[j] in ids;
    LinkedShaped(ids, l, ids[i], ids[j]);
    LinkedMembers(ids, l, ids[i], ids[j]);
    forall a, b | 0 <= a < |ids| && 0 <= b < |ids|
      ensures RegionEdge(edges + [e], index, a, b) <==> RegionEdge(edges, index, a, b) || (a == i && b == j)
    {
      NewEdge(edges, e, index, a, b);
      CrossesOnce(e, index, i, j, a, b);
    }
    LinkedExactCore(edges, e, index, ids, l, Linked(l, ids[i], ids[j]), i, j);
  }

  lemma LinkedExactCore(edges: seq<EdgeSpec>, e: EdgeSpec, index: map<Id, nat>, ids: seq<Id>, l: Links, l': Links, i: nat, j: nat)
    requires LinksRight(edges, index, ids, l) && LinksShaped(ids, l') && Distinct(ids) && i < |ids| && j < |ids|
    requires forall r, t :: r in ids ==> (t in l'.outgoing[r] <==> t in l.outgoing[r] || (r == ids[i] && t == ids[j]))
    requires forall r, t :: r in ids ==> (t in l'.incoming[r] <==> t in l.incoming[r] || (r == ids[j] && t == ids[i]))
    requires forall a, b :: 0 <= a < |ids| && 0 <= b < |ids| ==>
      (RegionEdge(edges + [e], index, a, b) <==> RegionEdge(edges, index, a, b) || (a == i && b == j))
    ensures LinksRight(edges + [e], index, ids, l')
  {
    hide Ascending, RegionEdge;
  }

  lemma CrossesOnce(e: EdgeSpec, index: map<Id, nat>, i: int, j: int, a: int, b: int)
    requires Crosses(e, index, i, j)
    ensures Crosses(e, index, a, b) <==> a == i && b == j
  {
  }

  lemma NewEdge(edges: seq<EdgeSpec>, e: EdgeSpec, index: map<Id, nat>, a: int, b: int)
    ensures RegionEdge(edges + [e], index, a, b) <==> RegionEdge(edges, index, a, b) || (a != b && Crosses(e, index, a, b))
  {
    hide Crosses;
    assert forall x :: x in edges + [e] <==> x in edges || x == e;
  }

  /** An edge that joins no two different regions changes nothing. */
  lemma SkippedExact(edges: seq<EdgeSpec>, e: EdgeSpec, index: map<Id, nat>, ids: seq<Id>, l: Links)
    requires LinksRight(edges, index, ids, l) && forall i, j :: i != j ==> !Crosses(e, index, i, j)
    ensures LinksRight(edges + [e], index, ids, l)
  {
    hide Crosses, LinksShaped;
    forall a, b | 0 <= a < |ids| && 0 <= b < |ids|
      ensures RegionEdge(edges + [e], index, a, b) <==> RegionEdge(edges, index, a, b)
    {
      NewEdge(edges, e, index, a, b);
    }
  }

  method LinkRegions(edges: seq<EdgeSpec>, index: map<Id, nat>, ids: seq<Id>) returns (l: Links)
    requires Distinct(ids) && forall v :: v in index ==> index[v] < |ids|
    ensures LinksRight(edges, index, ids, l)
  {
    hide Distinct, Insert, LinksRight;
    l := Links(map r | r in ids :: [], map r | r in ids :: [], map r | r in ids :: 0);
    NoLinks(index, ids, l);
    for k := 0 to |edges|
      invariant LinksRight(edges[..k], index, ids, l)
    {
      var e := edges[k];
      assert edges[..k + 1] == edges[..k] + [e];
      if IsImmediate(e) && ComponentOf(e.from) in index && ComponentOf(e.to) in index &&
         index[ComponentOf(e.from)] != index[ComponentOf(e.to)] {
        var i, j := index[ComponentOf(e.from)], index[ComponentOf(e.to)];
        LinkedExact(edges[..k], e, index, ids, l, i, j);
        l := Linked(l, ids[i], ids[j]);
      } else {
        SkippedExact(edges[..k], e, index, ids, l);
      }
    }
    assert edges[..|edges|] == edges;
  }

  lemma NoLinks(index: map<Id, nat>, ids: seq<Id>, l: Links)
    requires l == Links(map r | r in ids :: [], map r | r in ids :: [], map r | r in ids :: 0)
    ensures LinksRight([], index, ids, l)
  {
  }

  /** The linked regions with their ranks are a well-formed region graph, and the initial indegrees count
      the predecessors of each region. */
  lemma LinksWellFormed(edges: seq<EdgeSpec>, index: map<Id, nat>, ids: seq<Id>, l: Links, rank: map<Id, int>)
    requires LinksRight(edges, index, ids, l) && Distinct(ids) && forall r :: r in ids ==> r in rank
    ensures WellFormed(Regions(ids, l.outgoing, rank))
  {
    hide Less, LinksExact;
    forall r, i, j | r in ids && 0 <= i < j < |l.outgoing[r]| ensures Less(l.outgoing[r][i], l.outgoing[r][j]) {
      assert Ascending(l.outgoing[r]);
      LessTrichotomy(l.outgoing[r][i], l.outgoing[r][j]);
    }
  }

  lemma IncomingIsWaiting(edges: seq<EdgeSpec>, index: map<Id, nat>, ids: seq<Id>, l: Links, rank: map<Id, int>, j: nat)
    requires LinksRight(edges, index, ids, l) && j < |ids|
    ensures ids[j] in l.incoming && Waiting(Regions(ids, l.outgoing, rank), [], ids[j]) == Elements(l.incoming[ids[j]])
  {
    hide RegionEdge, Ascending;
    var g := Regions(ids, l.outgoing, rank);
    assert ids[j] in ids;
    forall p | p in ids ensures Precedes(g, p, ids[j]) <==> p in l.incoming[ids[j]] {
      var i :| 0 <= i < |ids| && ids[i] == p;
      assert ids[j] in l.outgoing[ids[i]] <==> ids[i] in l.incoming[ids[j]];
    }
    hide Precedes;
    assert forall p :: p in Waiting(g, [], ids[j]) <==> p in l.incoming[ids[j]];
  }

  lemma LinksCount(edges: seq<EdgeSpec>, index: map<Id, nat>, ids: seq<Id>, l: Links, rank: map<Id, int>)
    requires LinksRight(edges, index, ids, l)
    ensures CountsRight(Regions(ids, l.outgoing, rank), [], l.indegree, {})
  {
    hide RegionEdge, Sorted, Distinct, Waiting, LinksExact;
    var g := Regions(ids, l.outgoing, rank);
    forall r | r in ids ensures r in l.indegree && l.indegree[r] == |Waiting(g, [], r)| {
      assert Ascending(l.incoming[r]);
      var j :| 0 <= j < |ids| && ids[j] == r;
      IncomingIsWaiting(edges, index, ids, l, rank, j);
      DistinctSize(l.incoming[r]);
    }
  }

  /** Region edges follow the reverse topological order of the components downwards. */
  lemma LinksDescend(known: set<Id>, edges: seq<EdgeSpec>, sccs: seq<seq<Id>>, index: map<Id, nat>, ids: seq<Id>,
                     l: Links, rank: map<Id, int>)
    requires SccsInOrder(ImmediateEdges(known, edges), sccs) && IndexRight(sccs, index) && |ids| == |sccs|
    requires LinksRight(edges, index, ids, l)
    ensures Descending(Regions(ids, l.outgoing, rank))
  {
    hide Ascending, SccsInOrder, IndexRight, RegionEdge;
    var g := Regions(ids, l.outgoing, rank);
    forall i, j | 0 <= i < |ids| && 0 <= j < |ids| && Precedes(g, ids[i], ids[j]) ensures j < i {
      assert ids[j] in l.outgoing[ids[i]];
      RegionEdgeDescends(known, edges, sccs, index, i, j);
    }
  }

  lemma RegionEdgeDescends(known: set<Id>, edges: seq<EdgeSpec>, sccs: seq<seq<Id>>, index: map<Id, nat>, i: nat, j: nat)
    requires SccsInOrder(ImmediateEdges(known, edges), sccs) && IndexRight(sccs, index)
    requires i < |sccs| && j < |sccs| && RegionEdge(edges, index, i, j)
    ensures j < i
  {
    var a, b := EdgeEnds(known, edges, sccs, index, i, j);
    assert a in sccs[i] && b in sccs[j];
    hide Edge, IndexRight, RegionEdge, ImmediateEdges;
  }

  lemma EdgeEnds(known: set<Id>, edges: seq<EdgeSpec>, sccs: seq<seq<Id>>, index: map<Id, nat>, i: nat, j: nat) returns (a: Id, b: Id)
    requires IndexRight(sccs, index) && i < |sccs| && j < |sccs| && RegionEdge(edges, index, i, j)
    requires SccsInOrder(ImmediateEdges(known, edges), sccs)
    ensures a in sccs[i] && b in sccs[j] && Edge(ImmediateEdges(known, edges), a, b)
  {
    hide Mutual;
    var e :| e in edges && Crosses(e, index, i, j);
    a, b := ComponentOf(e.from), ComponentOf(e.to);
    EdgeIff(known, edges, a, b);
    hide Edge;
    assert Joins(e, a, b);
  }
}
