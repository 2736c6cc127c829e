/** Finite directed graphs by adjacency lists, and reachability over them. */
module Digraph {

  type Graph<T(==)> = map<T, seq<T>>

  ghost predicate Edge<T>(g: Graph<T>, a: T, b: T) {
    a in g && b in g[a]
  }

  ghost predicate IsPath<T>(g: Graph<T>, p: seq<T>) {
    |p| > 0 && forall i :: 0 <= i < |p| - 1 ==> Edge(g, p[i], p[i + 1])
  }

  ghost predicate PathFromTo<T>(g: Graph<T>, p: seq<T>, a: T, b: T) {
    IsPath(g, p) && p[0] == a && p[|p| - 1] == b
  }

  /** b can be reached from a over zero or more edges. */
  ghost predicate Reach<T(!new)>(g: Graph<T>, a: T, b: T) {
    exists p :: PathFromTo(g, p, a, b)
  }

  /** Every edge leads to a node of the graph. */
  ghost predicate Closed<T(!new)>(g: Graph<T>) {
    forall a, b :: Edge(g, a, b) ==> b in g
  }

  lemma ReachSelf<T(!new)>(g: Graph<T>, a: T)
    ensures Reach(g, a, a)
  {
    assert PathFromTo(g, [a], a, a);
  }

  lemma ReachEdge<T(!new)>(g: Graph<T>, a: T, b: T)
    requires Edge(g, a, b)
    ensures Reach(g, a, b)
  {
    assert PathFromTo(g, [a, b], a, b);
  }

  lemma ReachTransitive<T(!new)>(g: Graph<T>, a: T, b: T, c: T)
    requires Reach(g, a, b) && Reach(g, b, c)
    ensures Reach(g, a, c)
  {
    var p :| PathFromTo(g, p, a, b);
    var q :| PathFromTo(g, q, b, c);
    var r := p + q[1..];
    forall i | 0 <= i < |r| - 1 ensures Edge(g, r[i], r[i + 1]) {
      if i >= |p| - 1 {
        assert r[i] == q[i - (|p| - 1)] && r[i + 1] == q[i + 1 - (|p| - 1)];
      }
    }
    assert PathFromTo(g, r, a, c);
  }

  /** A set of nodes that no edge leaves contains everything reachable from its members. */
  lemma {:induction false} PathStaysInside<T>(g: Graph<T>, inside: set<T>, p: seq<T>)
    requires IsPath(g, p) && p[0] in inside
    requires forall a, b :: a in inside && Edge(g, a, b) ==> b in inside
    ensures forall x :: x in p ==> x in inside
  {
    if |p| > 1 {
      assert Edge(g, p[0], p[1]);
      forall i | 0 <= i < |p[1..]| - 1 ensures Edge(g, p[1..][i], p[1..][i + 1]) {
        assert Edge(g, p[i + 1], p[i + 2]);
      }
      PathStaysInside(g, inside, p[1..]);
      assert p == [p[0]] + p[1..];
    }
  }

  lemma ReachStaysInside<T(!new)>(g: Graph<T>, inside: set<T>, a: T, b: T)
    requires a in inside && Reach(g, a, b)
    requires forall x, y :: x in inside && Edge(g, x, y) ==> y in inside
    ensures b in inside
  {
    var p :| PathFromTo(g, p, a, b);
    PathStaysInside(g, inside, p);
  }
}
