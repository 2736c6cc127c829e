/** The part of a graph description the compiler reads. */
module GraphSpecs {
  import opened Ids
  import opened Digraph

  datatype EdgeKind = Immediate | Delay | State | Async

  datatype EdgeSpec = EdgeSpec(id: Id, from: string, to: string, kind: EdgeKind, hasKind: bool, invalidKind: string)

  datatype ComponentSpec = ComponentSpec(id: Id, priority: string)

  datatype LoopSpec = LoopSpec(id: Id, components: seq<Id>)

  datatype GraphSpec = GraphSpec(components: seq<ComponentSpec>, edges: seq<EdgeSpec>, loops: seq<LoopSpec>)

  /** Position just behind the last dot, or 0 when there is none. */
  function AfterLastDot(s: string): (n: nat)
    ensures n <= |s|
  {
    if s == "" then 0 else if s[|s| - 1] == '.' then |s| else AfterLastDot(s[..|s| - 1])
  }

  /** The component part of a `component.port` endpoint; an endpoint without a dot is a component. */
  function ComponentOf(endpoint: string): Id {
    var n := AfterLastDot(endpoint);
    if n == 0 then endpoint else endpoint[..n - 1]
  }

  /** Edges with a missing or invalid kind are ignored by the compiler. */
  predicate IsImmediate(e: EdgeSpec) {
    e.hasKind && e.invalidKind == "" && e.kind.Immediate?
  }

  /** The position is that behind the last dot. */
  lemma {:induction false} LastDot(s: string)
    ensures var n := AfterLastDot(s); (n == 0 <==> '.' !in s) && (n > 0 ==> s[n - 1] == '.' && '.' !in s[n..])
  {
    if s != "" && s[|s| - 1] != '.' {
      var front, n := s[..|s| - 1], AfterLastDot(s);
      LastDot(front);
      assert s == front + [s[|s| - 1]];
      assert n > 0 ==> s[n..] == front[n..] + [s[|s| - 1]];
    }
  }

  /** An endpoint is a component, or a component and, behind the last dot, a port. */
  lemma EndpointParts(s: string)
    ensures '.' !in s ==> ComponentOf(s) == s
    ensures '.' in s ==> exists port: string :: '.' !in port && s == ComponentOf(s) + "." + port
  {
    LastDot(s);
    var n := AfterLastDot(s);
    if n > 0 {
      assert s == s[..n - 1] + [s[n - 1]] + s[n..];
      assert s == ComponentOf(s) + "." + s[n..];
    }
  }

  function PriorityRank(priority: string): int {
    if priority == "high" then 3 else if priority == "low" then 1 else if priority == "background" then 0 else 2
  }

  /** The rank declared for a component; a repeated id counts with its last declaration. */
  function DeclaredRank(components: seq<ComponentSpec>, id: Id): int
    requires exists c :: c in components && c.id == id
  {
    var last := components[|components| - 1];
    if last.id == id then PriorityRank(last.priority)
    else
      assert components == components[..|components| - 1] + [last];
      DeclaredRank(components[..|components| - 1], id)
  }

  ghost function Known(graph: GraphSpec): set<Id> {
    set c | c in graph.components && c.id != "" :: c.id
  }

  /** The adjacency lists of the first k immediate edges between known components. */
  function ImmediateEdges(known: set<Id>, edges: seq<EdgeSpec>): (g: Graph<Id>)
    ensures g.Keys == known
  {
    if edges == [] then map v | v in known :: []
    else
      var g := ImmediateEdges(known, edges[..|edges| - 1]);
      var e := edges[|edges| - 1];
      var from, to := ComponentOf(e.from), ComponentOf(e.to);
      if IsImmediate(e) && from in known && to in known then g[from := g[from] + [to]] else g
  }

  ghost function ImmediateGraph(graph: GraphSpec): Graph<Id> {
    ImmediateEdges(Known(graph), graph.edges)
  }

  /** A declared edge of a valid kind, which is immediate, leads from one component to the other. */
  ghost predicate Joins(e: EdgeSpec, a: Id, b: Id) {
    e.hasKind && e.invalidKind == "" && e.kind == Immediate && ComponentOf(e.from) == a && ComponentOf(e.to) == b
  }

  /** The edges of an immediate kind, in order. */
  ghost function Immediately(edges: seq<EdgeSpec>): seq<EdgeSpec> {
    if edges == [] then []
    else
      var e := edges[|edges| - 1];
      Immediately(edges[..|edges| - 1]) + if e.hasKind && e.invalidKind == "" && e.kind == Immediate then [e] else []
  }

  lemma {:induction false} ImmediatelyIn(edges: seq<EdgeSpec>, e: EdgeSpec)
    ensures e in Immediately(edges) <==> e in edges && e.hasKind && e.invalidKind == "" && e.kind == Immediate
  {
    if edges != [] {
      ImmediatelyIn(edges[..|edges| - 1], e);
      assert edges == edges[..|edges| - 1] + [edges[|edges| - 1]];
    }
  }

  /** Delayed, state and async edges, and edges without a valid kind, leave no trace in the immediate graph. */
  lemma {:induction false} OthersLeaveNoTrace(known: set<Id>, edges: seq<EdgeSpec>)
    ensures ImmediateEdges(known, Immediately(edges)) == ImmediateEdges(known, edges)
  {
    hide ImmediateEdges, Immediately, ComponentOf;
    if edges == [] {
      NoneImmediate();
    } else {
      var front, e := edges[..|edges| - 1], edges[|edges| - 1];
      OthersLeaveNoTrace(known, front);
      assert edges == front + [e];
      FilteredNext(front, e);
      OneMore(known, front, e);
      OneMore(known, Immediately(front), e);
      assert Immediately(front) + [] == Immediately(front);
    }
  }

  lemma NoneImmediate()
    ensures Immediately([]) == []
  {
  }

  lemma FilteredNext(edges: seq<EdgeSpec>, e: EdgeSpec)
    ensures Immediately(edges + [e]) == Immediately(edges) + if e.hasKind && e.invalidKind == "" && e.kind == Immediate then [e] else []
  {
    assert (edges + [e])[..|edges|] == edges;
  }

  lemma OneMore(known: set<Id>, edges: seq<EdgeSpec>, e: EdgeSpec)
    ensures ImmediateEdges(known, edges + [e]) ==
      var g, from, to := ImmediateEdges(known, edges), ComponentOf(e.from), ComponentOf(e.to);
      if IsImmediate(e) && from in known && to in known then g[from := g[from] + [to]] else g
  {
    assert (edges + [e])[..|edges|] == edges;
  }

  /** The graph has an edge exactly where an immediate edge joins two known components. */
  lemma {:induction false} EdgeIff(known: set<Id>, edges: seq<EdgeSpec>, a: Id, b: Id)
    ensures Edge(ImmediateEdges(known, edges), a, b) <==>
      a in known && b in known && exists e :: e in edges && Joins(e, a, b)
  {
    if edges != [] {
      var front, e := edges[..|edges| - 1], edges[|edges| - 1];
      EdgeIff(known, front, a, b);
      assert edges == front + [e];
      var from, to := ComponentOf(e.from), ComponentOf(e.to);
      var g, g' := ImmediateEdges(known, front), ImmediateEdges(known, edges);
      assert Edge(g', a, b) <==> Edge(g, a, b) || (a in known && b in known && Joins(e, a, b));
      assert (exists x :: x in edges && Joins(x, a, b)) <==> Joins(e, a, b) || exists x :: x in front && Joins(x, a, b);
    }
  }

  lemma ImmediateClosed(known: set<Id>, edges: seq<EdgeSpec>)
    ensures Closed(ImmediateEdges(known, edges))
  {
    forall a, b | Edge(ImmediateEdges(known, edges), a, b) ensures b in known {
      EdgeIff(known, edges, a, b);
    }
  }
}
