/** From a graph description to an ordered region plan. */
module GraphCompiler {
  import opened Ids
  import opened Digraph
  import opened GraphSpecs
  import opened Scc
  import opened RegionOrder
  import opened RegionGraph

  datatype CompileError =
    | EmptyLoopId
    | DuplicateLoop(loop: Id)
    | DuplicateLoopComponent(loop: Id, component: Id)
    | MissingLoopComponent(loop: Id, component: Id)
    | SharedLoopComponent(component: Id, owner: Id, loop: Id)
    | UndeclaredCycle(components: seq<Id>)
    | DecorativeLoop(loop: Id)
    | UnmatchedLoop(loop: Id)
    | CyclicAfterCondensation

  // ----- reading the components and edges

  method KnownComponents(components: seq<ComponentSpec>) returns (ids: seq<Id>, known: set<Id>)
    ensures Distinct(ids) && Elements(ids) == known == set c | c in components && c.id != "" :: c.id
  {
    ids, known := [], {};
    for k := 0 to |components|
      invariant Distinct(ids) && Elements(ids) == known == set c | c in components[..k] && c.id != "" :: c.id
    {
      var id := components[k].id;
      assert components[..k + 1] == components[..k] + [components[k]];
      if id != "" && id !in known {
        assert Elements(ids + [id]) == Elements(ids) + {id};
        known := known + {id};
        ids := ids + [id];
      }
    }
    assert components[..|components|] == components;
  }

  method ReadImmediateEdges(known: set<Id>, edges: seq<EdgeSpec>) returns (g: Graph<Id>)
    ensures g == ImmediateEdges(known, edges)
  {
    g := map v | v in known :: [];
    for k := 0 to |edges|
      invariant g == ImmediateEdges(known, edges[..k])
    {
      var e := edges[k];
      assert edges[..k + 1][..k] == edges[..k];
      if IsImmediate(e) {
        var from, to := ComponentOf(e.from), ComponentOf(e.to);
        if from in known && to in known {
          g := g[from := g[from] + [to]];
        }
      }
    }
    assert edges[..|edges|] == edges;
  }

  // ----- the declared loops on their own

  ghost predicate LoopOk(loop: LoopSpec, known: set<Id>) {
    loop.id != "" && Distinct(loop.components) && Elements(loop.components) <= known
  }

  ghost predicate Apart(a: LoopSpec, b: LoopSpec) {
    a.id != b.id && forall c :: c in a.components ==> c !in b.components
  }

  /** Loop ids are non-empty and distinct, each loop lists known components once, and no component is shared. */
  ghost predicate LoopsOk(loops: seq<LoopSpec>, known: set<Id>) {
    && (forall i :: 0 <= i < |loops| ==> LoopOk(loops[i], known))
    && (forall i, j :: 0 <= i < j < |loops| ==> Apart(loops[i], loops[j]))
  }

  /** What the owner table records: the id of some loop, already read, that lists the component. */
  ghost predicate OwnersRight(loops: seq<LoopSpec>, owner: map<Id, Id>) {
    forall c :: c in owner ==> exists i :: 0 <= i < |loops| && loops[i].id == owner[c] && c in loops[i].components
  }

  ghost predicate OwnersComplete(loops: seq<LoopSpec>, owner: map<Id, Id>) {
    forall i, c :: 0 <= i < |loops| && c in loops[i].components ==> c in owner && owner[c] == loops[i].id
  }

  /** The components are known, listed once, and not recorded under another loop id. */
  ghost predicate Ownable(components: seq<Id>, known: set<Id>, owners: map<Id, Id>, loop: Id) {
    && Distinct(components) && Elements(components) <= known
    && forall c :: c in components && c in owners ==> owners[c] == loop
  }

  /** Reads the component list of one loop, given the owners recorded for the loops before it. */
  method CheckLoop(loop: LoopSpec, known: set<Id>, owners: map<Id, Id>)
    returns (errors: seq<CompileError>, owner: map<Id, Id>)
    ensures CyclicAfterCondensation !in errors
    ensures owners.Keys <= owner.Keys
    ensures forall c :: c in owner ==> (c in owners && owner[c] == owners[c]) || (owner[c] == loop.id && c in loop.components)
    ensures errors == [] <==> Ownable(loop.components, known, owners, loop.id)
    ensures errors == [] ==> forall c :: c in loop.components ==> c in owner && owner[c] == loop.id
    ensures errors == [] ==> forall c :: c in owners ==> owner[c] == owners[c]
  {
    errors, owner := [], owners;
    var seen: set<Id> := {};
    var components := loop.components;
    for k := 0 to |components|
      invariant CyclicAfterCondensation !in errors && seen == Elements(components[..k])
      invariant owners.Keys <= owner.Keys
      invariant forall c :: c in owner ==> (c in owners && owner[c] == owners[c]) || (owner[c] == loop.id && c in components)
      invariant errors == [] <==> Ownable(components[..k], known, owners, loop.id)
      invariant errors == [] ==> forall c :: c in components[..k] ==> c in owner && owner[c] == loop.id
      invariant errors == [] ==> forall c :: c in owners ==> owner[c] == owners[c]
    {
      var component := components[k];
      assert components[..k + 1] == components[..k] + [component];
      if component in seen {
        errors := errors + [DuplicateLoopComponent(loop.id, component)];
      }
      seen := seen + {component};
      if component !in known {
        errors := errors + [MissingLoopComponent(loop.id, component)];
      } else if component in owner && owner[component] != loop.id {
        errors := errors + [SharedLoopComponent(component, owner[component], loop.id)];
      } else {
        owner := owner[component := loop.id];
      }
    }
    assert components[..|components|] == components;
  }

  ghost function LoopIds(loops: seq<LoopSpec>): set<Id> {
    set l | l in loops && l.id != "" :: l.id
  }

  /** The owner table before a loop, and what a clean reading of that loop says about all loops so far. */
  lemma CleanLoop(loops: seq<LoopSpec>, k: nat, known: set<Id>, owners: map<Id, Id>)
    requires k < |loops| && loops[k].id != ""
    requires LoopsOk(loops[..k], known) && OwnersComplete(loops[..k], owners) && OwnersRight(loops[..k], owners)
    ensures LoopsOk(loops[..k + 1], known) <==>
      loops[k].id !in LoopIds(loops[..k]) && Ownable(loops[k].components, known, owners, loops[k].id)
  {
    var before, loop := loops[..k], loops[k];
    assert loops[..k + 1] == before + [loop];
    if loop.id !in LoopIds(before) && Ownable(loop.components, known, owners, loop.id) {
      forall i | 0 <= i < k ensures Apart(before[i], loop) {
        assert before[i].id in LoopIds(before);
      }
    }
    if LoopsOk(loops[..k + 1], known) {
      forall i | 0 <= i < k ensures Apart(before[i], loop) {
        assert Apart(loops[..k + 1][i], loops[..k + 1][k]);
      }
      assert LoopOk(loops[..k + 1][k], known);
    }
  }

  /** A loop reported for a missing or repeated id, or for its components, is a violation. */
  lemma DirtyLoop(loops: seq<LoopSpec>, k: nat, known: set<Id>, owners: map<Id, Id>)
    requires k < |loops| && OwnersRight(loops[..k], owners)
    requires loops[k].id == "" || loops[k].id in LoopIds(loops[..k]) ||
      !Ownable(loops[k].components, known, owners, loops[k].id)
    ensures !LoopsOk(loops, known)
  {
    hide Distinct;
    var loop := loops[k];
    if loop.id in LoopIds(loops[..k]) {
      var i :| 0 <= i < k && loops[i].id == loop.id;
      assert !Apart(loops[i], loops[k]);
    } else if LoopOk(loop, known) {
      var c :| c in loop.components && c in owners && owners[c] != loop.id;
      var i :| 0 <= i < k && loops[..k][i].id == owners[c] && c in loops[..k][i].components;
      assert !Apart(loops[i], loops[k]);
    } else {
      assert !LoopOk(loops[k], known);
    }
  }

  method CheckLoops(loops: seq<LoopSpec>, known: set<Id>) returns (errors: seq<CompileError>)
    ensures CyclicAfterCondensation !in errors
    ensures errors == [] <==> LoopsOk(loops, known)
  {
    hide Distinct, Ownable, LoopsOk;
    errors := [];
    var owner: map<Id, Id> := map[];
    var loopIds: set<Id> := {};
    assert LoopsOk(loops[..0], known) by { LoopsOkEmpty(known); }
    for k := 0 to |loops|
      invariant CyclicAfterCondensation !in errors && loopIds == LoopIds(loops[..k]) && OwnersRight(loops[..k], owner)
      invariant errors == [] ==> LoopsOk(loops[..k], known) && OwnersComplete(loops[..k], owner)
      invariant errors != [] ==> !LoopsOk(loops, known)
    {
      var loop := loops[k];
      assert loops[..k + 1] == loops[..k] + [loop];
      if loop.id == "" {
        DirtyLoop(loops, k, known, owner);
        errors := errors + [EmptyLoopId];
      } else {
        ghost var clean := errors == [];
        if loop.id in loopIds {
          DirtyLoop(loops, k, known, owner);
          errors := errors + [DuplicateLoop(loop.id)];
        }
        loopIds := loopIds + {loop.id};
        var found, owner' := CheckLoop(loop, known, owner);
        if clean {
          CleanLoop(loops, k, known, owner);
        }
        if found != [] {
          DirtyLoop(loops, k, known, owner);
        }
        owner := owner';
        errors := errors + found;
      }
    }
    assert loops[..|loops|] == loops;
  }

  lemma LoopsOkEmpty(known: set<Id>)
    ensures LoopsOk([], known)
  {
  }

  // ----- matching loops with components

  /** Whether two component lists name the same components the same number of times. */
  predicate SameComponentSet(left: seq<Id>, right: seq<Id>) {
    SortIds(left) == SortIds(right)
  }

  lemma SameComponentSetIff(left: seq<Id>, right: seq<Id>)
    ensures SameComponentSet(left, right) <==> multiset(left) == multiset(right)
  {
    SortIdsSorts(left);
    SortIdsSorts(right);
    if multiset(left) == multiset(right) {
      SortedUnique(SortIds(left), SortIds(right));
    }
  }

  predicate HasSelfLoop(edges: seq<EdgeSpec>, component: Id) {
    exists e :: e in edges && IsImmediate(e) && ComponentOf(e.from) == component && ComponentOf(e.to) == component
  }

  /** Whether a component of the graph closes an immediate cycle. */
  predicate IsCyclic(edges: seq<EdgeSpec>, scc: seq<Id>) {
    |scc| > 1 || (scc != [] && HasSelfLoop(edges, scc[0]))
  }

  /** Index of the first loop that lists the components of scc, or the number of loops. */
  method FirstMatch(loops: seq<LoopSpec>, scc: seq<Id>) returns (n: nat)
    ensures IsFirstMatch(loops, scc, n)
  {
    n := 0;
    while n < |loops| && !SameComponentSet(loops[n].components, scc)
      invariant n <= |loops| && forall j :: 0 <= j < n ==> !SameComponentSet(loops[j].components, scc)
    {
      n := n + 1;
    }
  }

  predicate IsFirstMatch(loops: seq<LoopSpec>, scc: seq<Id>, n: nat) {
    && n <= |loops|
    && (forall j :: 0 <= j < n ==> !SameComponentSet(loops[j].components, scc))
    && (n < |loops| ==> SameComponentSet(loops[n].components, scc))
  }

  function Decimal(n: nat): string {
    if n < 10 then [("0123456789")[n]] else Decimal(n / 10) + [("0123456789")[n % 10]]
  }

  /** The id of the region made from the scc at position i, given its first matching loop. */
  function RegionId(loops: seq<LoopSpec>, scc: seq<Id>, i: nat, match': nat): Id {
    if match' < |loops| then loops[match'].id
    else if |scc| == 1 then scc[0]
    else "region_" + Decimal(i)
  }

  datatype Region = Region(id: Id, components: seq<Id>, isLoop: bool)

  ghost predicate RegionRight(loops: seq<LoopSpec>, scc: seq<Id>, i: nat, region: Region) {
    exists n: nat :: IsFirstMatch(loops, scc, n) && region == Region(RegionId(loops, scc, i, n), scc, n < |loops|)
  }

  /** A region is its loop and is named after it; or it is a component and is named after that. */
  lemma RegionNamed(loops: seq<LoopSpec>, scc: seq<Id>, i: nat, region: Region)
    requires RegionRight(loops, scc, i, region)
    ensures region.components == scc && (region.isLoop <==> Matches(loops, scc))
    ensures region.isLoop ==> exists n :: 0 <= n < |loops| && IsFirstMatch(loops, scc, n) && region.id == loops[n].id
    ensures !region.isLoop && |scc| == 1 ==> region.id == scc[0]
  {
    hide SameComponentSet;
    var n: nat :| IsFirstMatch(loops, scc, n) && region == Region(RegionId(loops, scc, i, n), scc, n < |loops|);
    MatchesIff(loops, scc, n);
  }

  ghost predicate Matches(loops: seq<LoopSpec>, scc: seq<Id>) {
    exists j :: 0 <= j < |loops| && SameComponentSet(loops[j].components, scc)
  }

  /** The cyclic components are the ones some loop lists. */
  ghost predicate CyclesDeclared(edges: seq<EdgeSpec>, loops: seq<LoopSpec>, sccs: seq<seq<Id>>) {
    forall i :: 0 <= i < |sccs| ==> (IsCyclic(edges, sccs[i]) <==> Matches(loops, sccs[i]))
  }

  ghost predicate FirstMatched(loops: seq<LoopSpec>, sccs: seq<seq<Id>>, id: Id) {
    exists i, n: nat :: 0 <= i < |sccs| && n < |loops| && IsFirstMatch(loops, sccs[i], n) && loops[n].id == id
  }

  /** Every loop id is the id of the first match of some component. */
  ghost predicate LoopsMatched(loops: seq<LoopSpec>, sccs: seq<seq<Id>>) {
    forall j :: 0 <= j < |loops| ==> FirstMatched(loops, sccs, loops[j].id)
  }

  lemma FirstMatchUnique(loops: seq<LoopSpec>, scc: seq<Id>, m: nat, n: nat)
    requires IsFirstMatch(loops, scc, m) && IsFirstMatch(loops, scc, n)
    ensures m == n
  {
    hide SameComponentSet;
  }

  method MatchRegions(edges: seq<EdgeSpec>, loops: seq<LoopSpec>, sccs: seq<seq<Id>>)
    returns (errors: seq<CompileError>, regions: seq<Region>)
    ensures CyclicAfterCondensation !in errors
    ensures |regions| == |sccs| && forall i :: 0 <= i < |sccs| ==> RegionRight(loops, sccs[i], i, regions[i])
    ensures errors == [] <==> CyclesDeclared(edges, loops, sccs) && LoopsMatched(loops, sccs)
  {
    hide SameComponentSet, IsCyclic, RegionId, CyclesDeclared, FirstMatched;
    errors, regions := [], [];
    var matched: set<Id> := {};
    DeclaredNone(edges, loops);
    for i := 0 to |sccs|
      invariant CyclicAfterCondensation !in errors && |regions| == i
      invariant forall k :: 0 <= k < i ==> RegionRight(loops, sccs[k], k, regions[k])
      invariant errors == [] <==> CyclesDeclared(edges, loops, sccs[..i])
      invariant forall id :: id in matched <==> FirstMatched(loops, sccs[..i], id)
    {
      var scc := sccs[i];
      var n := FirstMatch(loops, scc);
      MatchedStep(loops, sccs, i, n);
      DeclaredStep(edges, loops, sccs, i);
      MatchesIff(loops, scc, n);
      if n < |loops| {
        matched := matched + {loops[n].id};
      }
      if IsCyclic(edges, scc) && n == |loops| {
        errors := errors + [UndeclaredCycle(scc)];
      }
      if !IsCyclic(edges, scc) && n < |loops| {
        errors := errors + [DecorativeLoop(loops[n].id)];
      }
      regions := regions + [Region(RegionId(loops, scc, i, n), scc, n < |loops|)];
    }
    assert sccs[..|sccs|] == sccs;
    var unmatched := ReportUnmatched(loops, matched);
    errors := errors + unmatched;
  }

  method ReportUnmatched(loops: seq<LoopSpec>, matched: set<Id>) returns (errors: seq<CompileError>)
    ensures CyclicAfterCondensation !in errors
    ensures errors == [] <==> forall j :: 0 <= j < |loops| ==> loops[j].id in matched
  {
    errors := [];
    for j := 0 to |loops|
      invariant CyclicAfterCondensation !in errors
      invariant errors == [] <==> forall k :: 0 <= k < j ==> loops[k].id in matched
    {
      if loops[j].id !in matched {
        errors := errors + [UnmatchedLoop(loops[j].id)];
      }
    }
  }

  lemma MatchesIff(loops: seq<LoopSpec>, scc: seq<Id>, n: nat)
    requires IsFirstMatch(loops, scc, n)
    ensures n < |loops| <==> Matches(loops, scc)
  {
    hide SameComponentSet;
  }

  lemma DeclaredNone(edges: seq<EdgeSpec>, loops: seq<LoopSpec>)
    ensures CyclesDeclared(edges, loops, []) && forall id :: !FirstMatched(loops, [], id)
  {
  }

  lemma DeclaredStep(edges: seq<EdgeSpec>, loops: seq<LoopSpec>, sccs: seq<seq<Id>>, i: nat)
    requires i < |sccs|
    ensures CyclesDeclared(edges, loops, sccs[..i + 1]) <==>
      CyclesDeclared(edges, loops, sccs[..i]) && (IsCyclic(edges, sccs[i]) <==> Matches(loops, sccs[i]))
  {
    hide IsCyclic, Matches;
    var all := sccs[..i + 1];
    assert forall k :: 0 <= k < i ==> all[k] == sccs[..i][k];
    assert all[i] == sccs[i];
  }

  lemma MatchedStep(loops: seq<LoopSpec>, sccs: seq<seq<Id>>, i: nat, n: nat)
    requires i < |sccs| && IsFirstMatch(loops, sccs[i], n)
    ensures forall id :: FirstMatched(loops, sccs[..i + 1], id) <==>
      FirstMatched(loops, sccs[..i], id) || (n < |loops| && id == loops[n].id)
  {
    hide IsFirstMatch;
    var front, all := sccs[..i], sccs[..i + 1];
    assert all == front + [sccs[i]];
    forall m: nat | IsFirstMatch(loops, sccs[i], m) ensures m == n {
      FirstMatchUnique(loops, sccs[i], m, n);
    }
    forall id ensures FirstMatched(loops, all, id) <==> FirstMatched(loops, front, id) || (n < |loops| && id == loops[n].id) {
      if FirstMatched(loops, all, id) {
        var k, m: nat :| 0 <= k < |all| && m < |loops| && IsFirstMatch(loops, all[k], m) && loops[m].id == id;
        assert k < i ==> front[k] == all[k];
      }
      if FirstMatched(loops, front, id) {
        var k, m: nat :| 0 <= k < |front| && m < |loops| && IsFirstMatch(loops, front[k], m) && loops[m].id == id;
        assert all[k] == front[k];
      }
      assert all[i] == sccs[i];
    }
  }

  // ----- what a clean report means for the graph itself

  /** A component lies on a cycle of immediate edges. */
  ghost predicate OnCycle(g: Graph<Id>, a: Id) {
    exists b :: Edge(g, a, b) && Reach(g, b, a)
  }

  /** The components are one whole class of mutually reachable components, and lie on cycles. */
  ghost predicate IsCycleClass(g: Graph<Id>, components: seq<Id>) {
    components != [] && forall a :: a in components ==>
      OnCycle(g, a) && forall b :: Mutual(g, a, b) <==> b in components
  }

  ghost predicate InSomeLoop(loops: seq<LoopSpec>, a: Id) {
    exists j :: 0 <= j < |loops| && a in loops[j].components
  }

  /** The loops are exactly the cyclic classes of the immediate graph. */
  ghost predicate LoopsAreCycles(g: Graph<Id>, loops: seq<LoopSpec>) {
    && (forall j :: 0 <= j < |loops| ==> IsCycleClass(g, loops[j].components))
    && (forall a :: a in g && OnCycle(g, a) ==> InSomeLoop(loops, a))
  }

  ghost predicate WellDeclared(graph: GraphSpec) {
    LoopsOk(graph.loops, Known(graph)) && LoopsAreCycles(ImmediateGraph(graph), graph.loops)
  }

  lemma FirstStep(g: Graph<Id>, a: Id, b: Id)
    requires Reach(g, a, b) && a != b
    ensures exists x :: Edge(g, a, x) && Reach(g, x, b)
  {
    var p :| PathFromTo(g, p, a, b);
    var q := p[1..];
    forall i | 0 <= i < |q| - 1 ensures Edge(g, q[i], q[i + 1]) {
      assert Edge(g, p[i + 1], p[i + 2]);
    }
    assert Edge(g, a, p[1]) && PathFromTo(g, q, p[1], b);
  }

  lemma SelfLoopIff(known: set<Id>, edges: seq<EdgeSpec>, a: Id)
    requires a in known
    ensures HasSelfLoop(edges, a) <==> Edge(ImmediateEdges(known, edges), a, a)
  {
    EdgeIff(known, edges, a, a);
    assert HasSelfLoop(edges, a) <==> exists e :: e in edges && Joins(e, a, a);
  }

  /** A component of the decomposition is reported cyclic exactly when its members lie on a cycle. */
  lemma CyclicIff(known: set<Id>, edges: seq<EdgeSpec>, sccs: seq<seq<Id>>, i: nat, a: Id)
    requires SccsInOrder(ImmediateEdges(known, edges), sccs) && i < |sccs| && a in sccs[i]
    ensures IsCyclic(edges, sccs[i]) <==> OnCycle(ImmediateEdges(known, edges), a)
  {
    hide Reach, HasSelfLoop, Edge, ImmediateEdges;
    var g := ImmediateEdges(known, edges);
    var scc := sccs[i];
    if |scc| > 1 {
      var b := if scc[0] == a then scc[1] else scc[0];
      assert b in scc && b != a by { assert scc[0] != scc[1]; }
      assert Mutual(g, a, b);
      FirstStep(g, a, b);
      var x :| Edge(g, a, x) && Reach(g, x, b);
      ReachTransitive(g, x, b, a);
    } else {
      assert scc == [a];
      SelfLoopIff(known, edges, a);
      if Edge(g, a, a) {
        ReachSelf(g, a);
      }
      if OnCycle(g, a) {
        var b :| Edge(g, a, b) && Reach(g, b, a);
        StepInside(known, edges, sccs, i, a, b);
      }
    }
  }

  /** An edge that can be followed back stays inside its component. */
  lemma StepInside(known: set<Id>, edges: seq<EdgeSpec>, sccs: seq<seq<Id>>, i: nat, a: Id, b: Id)
    requires SccsInOrder(ImmediateEdges(known, edges), sccs) && i < |sccs| && a in sccs[i]
    requires Edge(ImmediateEdges(known, edges), a, b) && Reach(ImmediateEdges(known, edges), b, a)
    ensures b in sccs[i]
  {
    hide Reach;
    var g := ImmediateEdges(known, edges);
    EdgeIff(known, edges, a, b);
    ReachEdge(g, a, b);
    var j :| 0 <= j < |sccs| && b in sccs[j];
    assert i == j <==> Mutual(g, a, b);
  }

  /** The class of a member is its component. */
  lemma ClassIsScc(g: Graph<Id>, sccs: seq<seq<Id>>, i: nat, a: Id, b: Id)
    requires SccsInOrder(g, sccs) && i < |sccs| && a in sccs[i] && b in g
    ensures Mutual(g, a, b) <==> b in sccs[i]
  {
    hide Mutual, Edge;
    var j :| 0 <= j < |sccs| && b in sccs[j];
    assert i == j <==> Mutual(g, a, b);
  }

  lemma MutualKnown(g: Graph<Id>, a: Id, b: Id)
    requires Closed(g) && a in g && Mutual(g, a, b)
    ensures b in g
  {
    hide Reach;
    assert forall x, y :: x in g.Keys && Edge(g, x, y) ==> y in g.Keys;
    ReachStaysInside(g, g.Keys, a, b);
  }

  /** A loop lists the components of an scc exactly when it is that scc as a class. */
  lemma MatchIffClass(known: set<Id>, edges: seq<EdgeSpec>, sccs: seq<seq<Id>>, loop: LoopSpec, i: nat)
    requires SccsInOrder(ImmediateEdges(known, edges), sccs) && i < |sccs| && LoopOk(loop, known)
    ensures SameComponentSet(loop.components, sccs[i]) <==> Elements(loop.components) == Elements(sccs[i])
  {
    SameComponentSetIff(loop.components, sccs[i]);
    if Elements(loop.components) == Elements(sccs[i]) {
      SameElementsSameMultiset(loop.components, sccs[i]);
    }
    if multiset(loop.components) == multiset(sccs[i]) {
      MultisetDistinct(loop.components, sccs[i]);
    }
  }

  lemma CyclicSccIsClass(known: set<Id>, edges: seq<EdgeSpec>, sccs: seq<seq<Id>>, i: nat, components: seq<Id>)
    requires SccsInOrder(ImmediateEdges(known, edges), sccs) && i < |sccs| && IsCyclic(edges, sccs[i])
    requires Elements(components) == Elements(sccs[i])
    ensures IsCycleClass(ImmediateEdges(known, edges), components)
  {
    hide Reach, Edge, IsCyclic, OnCycle, Mutual;
    var g := ImmediateEdges(known, edges);
    assert sccs[i][0] in Elements(sccs[i]);
    ImmediateClosed(known, edges);
    forall x ensures x in components <==> x in sccs[i] {
      assert x in Elements(components) <==> x in Elements(sccs[i]);
    }
    forall a | a in components ensures OnCycle(g, a) && forall b :: Mutual(g, a, b) <==> b in components {
      CyclicIff(known, edges, sccs, i, a);
      forall b ensures Mutual(g, a, b) <==> b in components {
        if Mutual(g, a, b) {
          MutualKnown(g, a, b);
        }
        if b in g {
          ClassIsScc(g, sccs, i, a, b);
        }
      }
    }
  }

  lemma ClassMatchesScc(known: set<Id>, edges: seq<EdgeSpec>, sccs: seq<seq<Id>>, i: nat, components: seq<Id>, a: Id)
    requires SccsInOrder(ImmediateEdges(known, edges), sccs) && i < |sccs| && a in sccs[i] && a in components
    requires IsCycleClass(ImmediateEdges(known, edges), components) && Elements(components) <= known
    ensures Elements(components) == Elements(sccs[i])
  {
    hide Reach, Edge, OnCycle, Mutual;
    var g := ImmediateEdges(known, edges);
    forall b ensures b in components <==> b in sccs[i] {
      assert b in components ==> b in Elements(components);
      if b in g {
        ClassIsScc(g, sccs, i, a, b);
      }
    }
  }

  lemma {:induction false} FirstMatchExists(loops: seq<LoopSpec>, scc: seq<Id>, j: nat)
    requires j < |loops| && SameComponentSet(loops[j].components, scc)
    ensures exists n: nat :: n <= j && IsFirstMatch(loops, scc, n)
    decreases j
  {
    hide SameComponentSet;
    if k: nat :| k < j && SameComponentSet(loops[k].components, scc) {
      FirstMatchExists(loops, scc, k);
    } else {
      assert IsFirstMatch(loops, scc, j);
    }
  }

  lemma SharedMeansSame(loops: seq<LoopSpec>, known: set<Id>, i: nat, j: nat, c: Id)
    requires LoopsOk(loops, known) && i < |loops| && j < |loops|
    requires loops[i].id == loops[j].id || (c in loops[i].components && c in loops[j].components)
    ensures i == j
  {
    assert i < j ==> Apart(loops[i], loops[j]);
    assert j < i ==> Apart(loops[j], loops[i]);
  }

  lemma CleanLoopIsClass(known: set<Id>, edges: seq<EdgeSpec>, loops: seq<LoopSpec>, sccs: seq<seq<Id>>, j: nat)
    requires SccsInOrder(ImmediateEdges(known, edges), sccs) && LoopsOk(loops, known) && j < |loops|
    requires CyclesDeclared(edges, loops, sccs) && FirstMatched(loops, sccs, loops[j].id)
    ensures IsCycleClass(ImmediateEdges(known, edges), loops[j].components)
  {
    hide SccsInOrder, IsCyclic, SameComponentSet, LoopsOk, IsCycleClass;
    var i, n: nat :| 0 <= i < |sccs| && n < |loops| && IsFirstMatch(loops, sccs[i], n) && loops[n].id == loops[j].id;
    SharedMeansSame(loops, known, n, j, "");
    assert Matches(loops, sccs[i]);
    LoopOkAt(loops, known, j);
    MatchIffClass(known, edges, sccs, loops[j], i);
    CyclicSccIsClass(known, edges, sccs, i, loops[j].components);
  }

  lemma LoopOkAt(loops: seq<LoopSpec>, known: set<Id>, j: nat)
    requires LoopsOk(loops, known) && j < |loops|
    ensures LoopOk(loops[j], known) && Elements(loops[j].components) <= known
  {
  }

  lemma CycleInLoop(known: set<Id>, edges: seq<EdgeSpec>, loops: seq<LoopSpec>, sccs: seq<seq<Id>>, a: Id)
    requires SccsInOrder(ImmediateEdges(known, edges), sccs) && LoopsOk(loops, known)
    requires CyclesDeclared(edges, loops, sccs) && a in known && OnCycle(ImmediateEdges(known, edges), a)
    ensures InSomeLoop(loops, a)
  {
    hide IsCyclic, SameComponentSet, LoopsOk, OnCycle, Mutual, Edge;
    var i :| 0 <= i < |sccs| && a in sccs[i];
    CyclicIff(known, edges, sccs, i, a);
    var j :| 0 <= j < |loops| && SameComponentSet(loops[j].components, sccs[i]);
    LoopOkAt(loops, known, j);
    MatchIffClass(known, edges, sccs, loops[j], i);
    assert a in Elements(sccs[i]);
  }

  lemma SccDeclared(known: set<Id>, edges: seq<EdgeSpec>, loops: seq<LoopSpec>, sccs: seq<seq<Id>>, i: nat)
    requires SccsInOrder(ImmediateEdges(known, edges), sccs) && LoopsOk(loops, known)
    requires LoopsAreCycles(ImmediateEdges(known, edges), loops) && i < |sccs|
    ensures IsCyclic(edges, sccs[i]) <==> Matches(loops, sccs[i])
  {
    hide IsCyclic, SameComponentSet, LoopsOk, OnCycle, Mutual, Edge;
    var a := sccs[i][0];
    assert a in sccs[i] && a in known;
    CyclicIff(known, edges, sccs, i, a);
    if IsCyclic(edges, sccs[i]) {
      var j :| 0 <= j < |loops| && a in loops[j].components;
      LoopOkAt(loops, known, j);
      ClassMatchesScc(known, edges, sccs, i, loops[j].components, a);
      MatchIffClass(known, edges, sccs, loops[j], i);
    }
    if Matches(loops, sccs[i]) {
      var j :| 0 <= j < |loops| && SameComponentSet(loops[j].components, sccs[i]);
      LoopOkAt(loops, known, j);
      MatchIffClass(known, edges, sccs, loops[j], i);
      assert a in Elements(sccs[i]);
    }
  }

  lemma ClassMatched(known: set<Id>, edges: seq<EdgeSpec>, loops: seq<LoopSpec>, sccs: seq<seq<Id>>, j: nat)
    requires SccsInOrder(ImmediateEdges(known, edges), sccs) && LoopsOk(loops, known)
    requires LoopsAreCycles(ImmediateEdges(known, edges), loops) && j < |loops|
    ensures FirstMatched(loops, sccs, loops[j].id)
  {
    hide IsCyclic, SameComponentSet, LoopsOk, OnCycle, Mutual, Edge, IsFirstMatch;
    LoopOkAt(loops, known, j);
    var a := loops[j].components[0];
    assert a in loops[j].components && a in Elements(loops[j].components);
    var i :| 0 <= i < |sccs| && a in sccs[i];
    ClassMatchesScc(known, edges, sccs, i, loops[j].components, a);
    MatchIffClass(known, edges, sccs, loops[j], i);
    FirstMatchExists(loops, sccs[i], j);
    var n: nat :| n <= j && IsFirstMatch(loops, sccs[i], n);
    FirstMatchMatches(loops, sccs[i], n);
    LoopOkAt(loops, known, n);
    MatchIffClass(known, edges, sccs, loops[n], i);
    assert a in Elements(sccs[i]);
    SharedMeansSame(loops, known, n, j, a);
  }

  lemma FirstMatchMatches(loops: seq<LoopSpec>, scc: seq<Id>, n: nat)
    requires IsFirstMatch(loops, scc, n) && n < |loops|
    ensures SameComponentSet(loops[n].components, scc)
  {
  }

  /** Given loops that are well formed on their own, matching reports nothing exactly when they are the
      cyclic classes of the graph. */
  lemma CleanIffCycles(known: set<Id>, edges: seq<EdgeSpec>, loops: seq<LoopSpec>, sccs: seq<seq<Id>>)
    requires SccsInOrder(ImmediateEdges(known, edges), sccs) && LoopsOk(loops, known)
    ensures CyclesDeclared(edges, loops, sccs) && LoopsMatched(loops, sccs) <==>
      LoopsAreCycles(ImmediateEdges(known, edges), loops)
  {
    hide SccsInOrder, LoopsOk, OnCycle, FirstMatched, IsCyclic, Matches, IsCycleClass, InSomeLoop;
    var g := ImmediateEdges(known, edges);
    if CyclesDeclared(edges, loops, sccs) && LoopsMatched(loops, sccs) {
      forall j | 0 <= j < |loops| ensures IsCycleClass(g, loops[j].components) {
        CleanLoopIsClass(known, edges, loops, sccs, j);
      }
      forall a | a in g && OnCycle(g, a) ensures InSomeLoop(loops, a) {
        CycleInLoop(known, edges, loops, sccs, a);
      }
    }
    if LoopsAreCycles(g, loops) {
      forall i | 0 <= i < |sccs| ensures IsCyclic(edges, sccs[i]) <==> Matches(loops, sccs[i]) {
        SccDeclared(known, edges, loops, sccs, i);
      }
      forall j | 0 <= j < |loops| ensures FirstMatched(loops, sccs, loops[j].id) {
        ClassMatched(known, edges, loops, sccs, j);
      }
    }
  }

  // ----- ranks

  ghost predicate Declared(components: seq<ComponentSpec>, id: Id) {
    exists c :: c in components && c.id == id
  }

  method ReadRanks(components: seq<ComponentSpec>) returns (rank: map<Id, int>)
    ensures forall id :: id in rank <==> Declared(components, id)
    ensures forall id :: Declared(components, id) ==> rank[id] == DeclaredRank(components, id) >= 0
  {
    rank := map[];
    for k := 0 to |components|
      invariant forall id :: id in rank <==> Declared(components[..k], id)
      invariant forall id :: Declared(components[..k], id) ==> rank[id] == DeclaredRank(components[..k], id) >= 0
    {
      var c := components[k];
      var upTo := components[..k + 1];
      assert upTo == components[..k] + [c] && upTo[..k] == components[..k] && upTo[k] == c;
      rank := rank[c.id := PriorityRank(c.priority)];
    }
    assert components[..|components|] == components;
  }

  /** The rank of a region is the highest rank among its components. */
  ghost predicate IsHighestRank(components: seq<ComponentSpec>, scc: seq<Id>, rank: int) {
    && (exists c :: c in scc && Declared(components, c) && DeclaredRank(components, c) == rank)
    && (forall c :: c in scc && Declared(components, c) ==> DeclaredRank(components, c) <= rank)
  }

  method RegionRank(scc: seq<Id>, rank: map<Id, int>) returns (highest: int)
    requires scc != [] && forall c :: c in scc ==> c in rank && rank[c] >= 0
    ensures (exists c :: c in scc && rank[c] == highest) && forall c :: c in scc ==> rank[c] <= highest
  {
    highest := -1;
    for k := 0 to |scc|
      invariant if k == 0 then highest == -1 else exists c :: c in scc[..k] && rank[c] == highest
      invariant forall c :: c in scc[..k] ==> rank[c] <= highest
    {
      assert scc[..k + 1] == scc[..k] + [scc[k]] && scc[k] in scc[..k + 1];
      highest := if rank[scc[k]] > highest then rank[scc[k]] else highest;
    }
    assert scc[..|scc|] == scc;
    if highest < 0 {
      highest := 2;
    }
  }

  // ----- the whole compiler

  function Names(regions: seq<Region>): seq<Id> {
    seq(|regions|, i requires 0 <= i < |regions| => regions[i].id)
  }

  datatype Plan = Plan(sccs: seq<seq<Id>>, regions: seq<Region>, graph: Regions, order: seq<Id>)

  ghost predicate RegionsRight(loops: seq<LoopSpec>, sccs: seq<seq<Id>>, regions: seq<Region>) {
    |regions| == |sccs| && forall i :: 0 <= i < |sccs| ==> RegionRight(loops, sccs[i], i, regions[i])
  }

  /** No two regions get the same id: no loop is named like a component of another region. */
  ghost predicate DistinctRegionIds(graph: GraphSpec) {
    forall sccs, regions :: SccsInOrder(ImmediateGraph(graph), sccs) && RegionsRight(graph.loops, sccs, regions) ==>
      Distinct(Names(regions))
  }

  ghost predicate RanksRight(components: seq<ComponentSpec>, regions: seq<Region>, rank: map<Id, int>) {
    && rank.Keys == Elements(Names(regions))
    && forall i :: 0 <= i < |regions| ==>
        regions[i].id in rank && IsHighestRank(components, regions[i].components, rank[regions[i].id])
  }

  ghost predicate EdgesRight(edges: seq<EdgeSpec>, sccs: seq<seq<Id>>, ids: seq<Id>, outgoing: map<Id, seq<Id>>) {
    exists index, l :: IndexRight(sccs, index) && LinksRight(edges, index, ids, l) && l.outgoing == outgoing
  }

  /** One region per strongly connected component, linked by the immediate edges between them, ordered by
      the unique priority-greedy topological plan. */
  ghost predicate PlanRight(graph: GraphSpec, plan: Plan) {
    && SccsInOrder(ImmediateGraph(graph), plan.sccs)
    && RegionsRight(graph.loops, plan.sccs, plan.regions)
    && plan.graph.ids == Names(plan.regions)
    && EdgesRight(graph.edges, plan.sccs, plan.graph.ids, plan.graph.outgoing)
    && RanksRight(graph.components, plan.regions, plan.graph.rank)
    && IsPlan(plan.graph, plan.order)
  }

  method RankRegions(components: seq<ComponentSpec>, regions: seq<Region>) returns (rank: map<Id, int>)
    requires Distinct(Names(regions))
    requires forall i, c :: 0 <= i < |regions| && c in regions[i].components ==> Declared(components, c)
    requires forall i :: 0 <= i < |regions| ==> regions[i].components != []
    ensures RanksRight(components, regions, rank)
  {
    hide Declared;
    var declared := ReadRanks(components);
    rank := map[];
    for i := 0 to |regions|
      invariant forall k :: 0 <= k < i ==>
        regions[k].id in rank && IsHighestRank(components, regions[k].components, rank[regions[k].id])
      invariant rank.Keys == Elements(Names(regions)[..i])
    {
      var highest := RegionRank(regions[i].components, declared);
      assert IsHighestRank(components, regions[i].components, highest);
      forall k | 0 <= k < i ensures regions[k].id != regions[i].id {
        assert Names(regions)[k] != Names(regions)[i];
      }
      assert Names(regions)[..i + 1] == Names(regions)[..i] + [regions[i].id];
      rank := rank[regions[i].id := highest];
    }
    assert Names(regions)[..|regions|] == Names(regions);
  }

  method CompileGraph(graph: GraphSpec) returns (errors: seq<CompileError>, plan: Plan)
    requires DistinctRegionIds(graph)
    ensures errors == [] <==> WellDeclared(graph)
    ensures CyclicAfterCondensation !in errors
    ensures PlanRight(graph, plan)
  {
    hide SccsInOrder, LoopsOk, CyclesDeclared, LoopsMatched, LoopsAreCycles, RegionRight, RanksRight, LinksRight, IndexRight,
      WellFormed, CountsRight, GreedyOrder, IsPlan, Descending, Closed, ImmediateEdges, Blocked, HasCycle, Distinct;
    var ids, known := KnownComponents(graph.components);
    var immediate := ReadImmediateEdges(known, graph.edges);
    ImmediateClosed(known, graph.edges);
    var sccs := TarjanScc(ids, immediate);
    var loopErrors := CheckLoops(graph.loops, known);
    var matchErrors, regions := MatchRegions(graph.edges, graph.loops, sccs);
    if loopErrors == [] {
      CleanIffCycles(known, graph.edges, graph.loops, sccs);
    }
    errors := loopErrors + matchErrors;
    var names := Names(regions);
    assert RegionsRight(graph.loops, sccs, regions);
    RegionMembers(graph, sccs, regions);
    var index := IndexSccs(sccs, known);
    IndexBound(sccs, index);
    var links := LinkRegions(graph.edges, index, names);
    var rank := RankRegions(graph.components, regions);
    RanksCover(graph.components, regions, rank);
    var g := Regions(names, links.outgoing, rank);
    LinksWellFormed(graph.edges, index, names, links, rank);
    LinksCount(graph.edges, index, names, links, rank);
    LinksDescend(known, graph.edges, sccs, index, names, links, rank);
    var order := OrderRegions(g, links.indegree);
    DescendingHasNoCycle(g);
    DrainsIffAcyclic(g, order);
    if |order| != |names| {
      errors := errors + [CyclicAfterCondensation];
    }
    plan := Plan(sccs, regions, g, order);
  }

  lemma IndexBound(sccs: seq<seq<Id>>, index: map<Id, nat>)
    requires IndexRight(sccs, index)
    ensures forall v :: v in index ==> index[v] < |sccs|
  {
  }

  lemma RanksCover(components: seq<ComponentSpec>, regions: seq<Region>, rank: map<Id, int>)
    requires RanksRight(components, regions, rank)
    ensures forall r :: r in Names(regions) ==> r in rank
  {
    hide IsHighestRank;
  }

  lemma RegionMembers(graph: GraphSpec, sccs: seq<seq<Id>>, regions: seq<Region>)
    requires SccsInOrder(ImmediateGraph(graph), sccs) && RegionsRight(graph.loops, sccs, regions)
    ensures IsPartition(Known(graph), sccs)
    ensures forall i, c :: 0 <= i < |regions| && c in regions[i].components ==> Declared(graph.components, c)
    ensures forall i :: 0 <= i < |regions| ==> regions[i].components != []
  {
    hide Sorted, Distinct, Mutual, Edge, IsFirstMatch, RegionId;
    forall i | 0 <= i < |regions| ensures regions[i].components == sccs[i] {
      assert RegionRight(graph.loops, sccs[i], i, regions[i]);
    }
    forall c | c in Known(graph) ensures Declared(graph.components, c) {
      var d :| d in graph.components && d.id == c;
    }
  }

  // ----- consequences

  ghost predicate Subgraph(h: Graph<Id>, g: Graph<Id>) {
    forall a, b :: Edge(h, a, b) ==> Edge(g, a, b)
  }

  lemma ReachInSupergraph(h: Graph<Id>, g: Graph<Id>, a: Id, b: Id)
    requires Subgraph(h, g) && Reach(h, a, b)
    ensures Reach(g, a, b)
  {
    var p :| PathFromTo(h, p, a, b);
    assert PathFromTo(g, p, a, b);
  }

  /** In a graph that compiles, every cycle of immediate edges runs inside one declared loop: once the edges
      internal to loops are taken away, nothing lies on a cycle any more. */
  lemma LoopsCutAllCycles(graph: GraphSpec, h: Graph<Id>, a: Id)
    requires WellDeclared(graph) && Subgraph(h, ImmediateGraph(graph))
    requires forall x, y, j :: 0 <= j < |graph.loops| && x in graph.loops[j].components && y in graph.loops[j].components ==>
      !Edge(h, x, y)
    ensures !OnCycle(h, a)
  {
    hide Reach, LoopsOk;
    var g := ImmediateGraph(graph);
    forall b | Edge(h, a, b) ensures !Reach(h, b, a) {
      if Reach(h, b, a) {
        ReachInSupergraph(h, g, b, a);
        CycleStaysInLoop(graph, a, b);
      }
    }
  }

  lemma CycleStaysInLoop(graph: GraphSpec, a: Id, b: Id)
    requires WellDeclared(graph) && Edge(ImmediateGraph(graph), a, b) && Reach(ImmediateGraph(graph), b, a)
    ensures exists j :: 0 <= j < |graph.loops| && a in graph.loops[j].components && b in graph.loops[j].components
  {
    hide Reach, LoopsOk;
    var g := ImmediateGraph(graph);
    assert OnCycle(g, a);
    ReachEdge(g, a, b);
    var j :| 0 <= j < |graph.loops| && a in graph.loops[j].components;
    assert IsCycleClass(g, graph.loops[j].components);
    assert Mutual(g, a, b);
  }

  /** Producers run first: an immediate edge between components of different regions goes forward in the plan. */
  lemma ProducersRunFirst(graph: GraphSpec, plan: Plan, i: nat, j: nat, a: Id, b: Id)
    requires PlanRight(graph, plan) && i < |plan.regions| && j < |plan.regions| && i != j
    requires a in plan.regions[i].components && b in plan.regions[j].components && Edge(ImmediateGraph(graph), a, b)
    ensures exists m, n :: 0 <= m < n < |plan.order| && plan.order[m] == plan.regions[i].id && plan.order[n] == plan.regions[j].id
  {
    hide SccsInOrder, GreedyOrder, RanksRight, RegionRight, LinksRight;
    var ids := plan.graph.ids;
    LinkFollowsEdge(graph, plan, i, j, a, b);
    hide Precedes;
    assert ids[i] in Elements(plan.order) && ids[j] in Elements(plan.order);
    var m :| 0 <= m < |plan.order| && plan.order[m] == ids[i];
    var n :| 0 <= n < |plan.order| && plan.order[n] == ids[j];
    assert Precedes(plan.graph, plan.order[m], plan.order[n]);
  }

  lemma LinkFollowsEdge(graph: GraphSpec, plan: Plan, i: nat, j: nat, a: Id, b: Id)
    requires PlanRight(graph, plan) && i < |plan.regions| && j < |plan.regions| && i != j
    requires a in plan.regions[i].components && b in plan.regions[j].components && Edge(ImmediateGraph(graph), a, b)
    ensures |plan.graph.ids| == |plan.regions|
    ensures Precedes(plan.graph, plan.graph.ids[i], plan.graph.ids[j])
  {
    hide SccsInOrder, RanksRight, IsPlan, IndexRight, LinksRight, Edge, RegionRight, RegionEdge, Joins;
    var ids := plan.graph.ids;
    RegionComponents(graph.loops, plan.sccs, plan.regions, i);
    RegionComponents(graph.loops, plan.sccs, plan.regions, j);
    EdgeIff(Known(graph), graph.edges, a, b);
    var e :| e in graph.edges && Joins(e, a, b);
    var index, l :| IndexRight(plan.sccs, index) && LinksRight(graph.edges, index, ids, l) && l.outgoing == plan.graph.outgoing;
    JoinCrosses(graph.edges, plan.sccs, index, e, i, j, a, b);
    LinkedPair(graph.edges, index, ids, l, i, j);
  }

  lemma RegionComponents(loops: seq<LoopSpec>, sccs: seq<seq<Id>>, regions: seq<Region>, i: nat)
    requires RegionsRight(loops, sccs, regions) && i < |regions|
    ensures |sccs| == |regions| && regions[i].components == sccs[i]
  {
    hide IsFirstMatch, RegionId;
    assert RegionRight(loops, sccs[i], i, regions[i]);
  }

  lemma JoinCrosses(edges: seq<EdgeSpec>, sccs: seq<seq<Id>>, index: map<Id, nat>, e: EdgeSpec, i: nat, j: nat, a: Id, b: Id)
    requires IndexRight(sccs, index) && i < |sccs| && j < |sccs| && a in sccs[i] && b in sccs[j] && i != j
    requires e in edges && Joins(e, a, b)
    ensures RegionEdge(edges, index, i, j)
  {
    assert Crosses(e, index, i, j);
  }

  lemma LinkedPair(edges: seq<EdgeSpec>, index: map<Id, nat>, ids: seq<Id>, l: Links, i: nat, j: nat)
    requires LinksRight(edges, index, ids, l) && i < |ids| && j < |ids| && RegionEdge(edges, index, i, j)
    ensures ids[i] in ids && ids[i] in l.outgoing && ids[j] in l.outgoing[ids[i]]
  {
    hide Ascending, RegionEdge;
    assert ids[i] in Elements(ids);
  }

  // ----- what the compiler does not look at

  /** The graph with its immediate edges only. */
  ghost function Undelayed(graph: GraphSpec): GraphSpec {
    graph.(edges := Immediately(graph.edges))
  }

  /** Edges that are not immediate change nothing: not which loops have to be declared, and not which plans are right.
      Feedback over delayed, state or async edges needs no loop. */
  lemma DelayedEdgesIgnored(graph: GraphSpec, plan: Plan)
    ensures ImmediateGraph(Undelayed(graph)) == ImmediateGraph(graph)
    ensures WellDeclared(Undelayed(graph)) <==> WellDeclared(graph)
    ensures DistinctRegionIds(Undelayed(graph)) <==> DistinctRegionIds(graph)
    ensures PlanRight(Undelayed(graph), plan) <==> PlanRight(graph, plan)
  {
    hide SccsInOrder, LoopsOk, LoopsAreCycles, RegionsRight, RanksRight, IsPlan, LinksRight, IndexRight, Immediately, Distinct, ImmediateEdges;
    OthersLeaveNoTrace(Known(graph), graph.edges);
    forall index, ids, l ensures LinksRight(Immediately(graph.edges), index, ids, l) <==> LinksRight(graph.edges, index, ids, l) {
      LinksAlike(graph.edges, index, ids, l);
    }
  }

  lemma LinksAlike(edges: seq<EdgeSpec>, index: map<Id, nat>, ids: seq<Id>, l: Links)
    ensures LinksRight(Immediately(edges), index, ids, l) <==> LinksRight(edges, index, ids, l)
  {
    hide LinksShaped, Immediately, RegionEdge;
    forall i, j ensures RegionEdge(Immediately(edges), index, i, j) <==> RegionEdge(edges, index, i, j) {
      RegionEdgeAlike(edges, index, i, j);
    }
  }

  lemma RegionEdgeAlike(edges: seq<EdgeSpec>, index: map<Id, nat>, i: int, j: int)
    ensures RegionEdge(Immediately(edges), index, i, j) <==> RegionEdge(edges, index, i, j)
  {
    hide ComponentOf, Immediately;
    forall e ensures e in Immediately(edges) && Crosses(e, index, i, j) <==> e in edges && Crosses(e, index, i, j) {
      ImmediatelyIn(edges, e);
    }
  }

  /** Once the components are listed, the plan is settled: its regions, their ids, ranks and links, and their order. */
  lemma PlanSettled(graph: GraphSpec, a: Plan, b: Plan)
    requires DistinctRegionIds(graph) && PlanRight(graph, a) && PlanRight(graph, b) && a.sccs == b.sccs
    ensures a == b
  {
    hide SccsInOrder, RanksRight, EdgesRight, IsPlan, RegionRight, Names;
    forall i | 0 <= i < |a.sccs| ensures a.regions[i] == b.regions[i] {
      RegionSettled(graph.loops, a.sccs[i], i, a.regions[i], b.regions[i]);
    }
    assert a.regions == b.regions;
    RanksSettled(graph.components, a.regions, a.graph.rank, b.graph.rank);
    LinksSettled(graph.edges, a.sccs, a.graph.ids, a.graph.outgoing, b.graph.outgoing);
    assert a.graph == b.graph;
    OrderSettled(graph, a, b);
  }

  lemma RegionSettled(loops: seq<LoopSpec>, scc: seq<Id>, i: nat, a: Region, b: Region)
    requires RegionRight(loops, scc, i, a) && RegionRight(loops, scc, i, b)
    ensures a == b
  {
    hide IsFirstMatch;
    var m: nat :| IsFirstMatch(loops, scc, m) && a == Region(RegionId(loops, scc, i, m), scc, m < |loops|);
    var n: nat :| IsFirstMatch(loops, scc, n) && b == Region(RegionId(loops, scc, i, n), scc, n < |loops|);
    FirstMatchUnique(loops, scc, m, n);
  }

  lemma RanksSettled(components: seq<ComponentSpec>, regions: seq<Region>, a: map<Id, int>, b: map<Id, int>)
    requires RanksRight(components, regions, a) && RanksRight(components, regions, b)
    ensures a == b
  {
    hide Declared;
    forall id | id in a ensures id in b && a[id] == b[id] {
      assert id in Elements(Names(regions)) && id in Names(regions);
      var i :| 0 <= i < |regions| && Names(regions)[i] == id;
      assert regions[i].id == id;
    }
    assert a.Keys == b.Keys;
  }

  lemma LinksSettled(edges: seq<EdgeSpec>, sccs: seq<seq<Id>>, ids: seq<Id>, a: map<Id, seq<Id>>, b: map<Id, seq<Id>>)
    requires EdgesRight(edges, sccs, ids, a) && EdgesRight(edges, sccs, ids, b)
    ensures a == b
  {
    hide LinksExact, Ascending, RegionEdge, IndexRight;
    var index, l :| IndexRight(sccs, index) && LinksRight(edges, index, ids, l) && l.outgoing == a;
    var index', l' :| IndexRight(sccs, index') && LinksRight(edges, index', ids, l') && l'.outgoing == b;
    IndexSettled(sccs, index, index');
    forall id | id in ids ensures a[id] == b[id] {
      OutgoingSettled(edges, index, ids, l, l', id);
    }
    assert forall id :: id in a <==> id in Elements(ids);
  }

  lemma IndexSettled(sccs: seq<seq<Id>>, a: map<Id, nat>, b: map<Id, nat>)
    requires IndexRight(sccs, a) && IndexRight(sccs, b)
    ensures a == b
  {
  }

  lemma OutgoingSettled(edges: seq<EdgeSpec>, index: map<Id, nat>, ids: seq<Id>, l: Links, l': Links, id: Id)
    requires LinksRight(edges, index, ids, l) && LinksRight(edges, index, ids, l') && id in ids
    ensures id in l.outgoing && id in l'.outgoing && l.outgoing[id] == l'.outgoing[id]
  {
    hide Ascending, RegionEdge;
    var i :| 0 <= i < |ids| && ids[i] == id;
    assert id in Elements(ids);
    forall t ensures t in l.outgoing[id] <==> t in l'.outgoing[id] {
      if t in ids {
        var j :| 0 <= j < |ids| && ids[j] == t;
        assert ids[j] in l.outgoing[ids[i]] <==> RegionEdge(edges, index, i, j);
      }
    }
    AscendingSettled(l.outgoing[id], l'.outgoing[id]);
  }

  lemma AscendingSettled(a: seq<Id>, b: seq<Id>)
    requires Ascending(a) && Ascending(b) && forall t :: t in a <==> t in b
    ensures a == b
  {
    hide Less;
    DistinctMultiset(a);
    DistinctMultiset(b);
    assert Elements(a) == Elements(b);
    SortedUnique(a, b);
  }

  lemma OrderSettled(graph: GraphSpec, a: Plan, b: Plan)
    requires DistinctRegionIds(graph) && PlanRight(graph, a) && PlanRight(graph, b) && a.graph == b.graph
    ensures a.order == b.order
  {
    hide SccsInOrder, RegionsRight, EdgesRight, RanksRight, Topological, GreedyOrder;
    SameSize(a.order, b.order);
    PlanWellFormed(graph, a);
    PlanUnique(a.graph, a.order, b.order, |a.order|);
    assert a.order[..|a.order|] == a.order && b.order[..|b.order|] == b.order;
  }

  lemma SameSize(a: seq<Id>, b: seq<Id>)
    requires Distinct(a) && Distinct(b) && Elements(a) == Elements(b)
    ensures |a| == |b|
  {
    DistinctSize(a);
    DistinctSize(b);
  }

  lemma PlanWellFormed(graph: GraphSpec, plan: Plan)
    requires DistinctRegionIds(graph) && PlanRight(graph, plan)
    ensures WellFormed(plan.graph)
  {
    hide SccsInOrder, RegionsRight, IsPlan, IsHighestRank, LinksRight, IndexRight, ImmediateEdges;
    var g := plan.graph;
    var index, l :| IndexRight(plan.sccs, index) && LinksRight(graph.edges, index, g.ids, l) && l.outgoing == g.outgoing;
    forall r | r in g.ids ensures r in g.rank {
      assert r in Elements(Names(plan.regions));
    }
    LinksWellFormed(graph.edges, index, g.ids, l, g.rank);
  }

  /** Whenever a region is emitted, it holds a component that is no less urgent than any component of any region that
      could have been emitted instead; high is more urgent than normal, which any other word means as well, normal
      more than low, and low more than background. */
  lemma UrgentFirst(graph: GraphSpec, plan: Plan, k: nat, i: nat, j: nat, d: Id)
    requires PlanRight(graph, plan) && k < |plan.order| && i < |plan.regions| && j < |plan.regions|
    requires plan.regions[i].id == plan.order[k] && ReadyAt(plan.graph, plan.order, k, plan.regions[j].id)
    requires d in plan.regions[j].components && Declared(graph.components, d)
    ensures exists c ::
      c in plan.regions[i].components && Declared(graph.components, c) && DeclaredRank(graph.components, c) >= DeclaredRank(graph.components, d)
    ensures PriorityRank("high") > PriorityRank("normal") > PriorityRank("low") > PriorityRank("background")
    ensures forall p :: p != "high" && p != "low" && p != "background" ==> PriorityRank(p) == PriorityRank("normal")
  {
    hide SccsInOrder, RegionsRight, EdgesRight, Topological, ReadyAt, PreferredAt, DeclaredRank, ReleasedAt;
    assert GreedyAt(plan.graph, plan.order, k);
    var mine, other := plan.regions[i], plan.regions[j];
    assert IsHighestRank(graph.components, mine.components, plan.graph.rank[mine.id]);
    assert IsHighestRank(graph.components, other.components, plan.graph.rank[other.id]);
    if mine.id != other.id {
      PreferredRank(plan.graph, plan.order, k, mine.id, other.id);
    }
  }

  /** For a graph whose loops are declared properly, regions get distinct ids as soon as no loop is named
      like a component. */
  lemma NamesApartSuffice(graph: GraphSpec)
    requires WellDeclared(graph) && forall l :: l in graph.loops ==> l.id !in Known(graph)
    ensures DistinctRegionIds(graph)
  {
    hide SccsInOrder, LoopsOk, LoopsAreCycles, RegionRight, Names, ImmediateEdges;
    forall sccs, regions | SccsInOrder(ImmediateGraph(graph), sccs) && RegionsRight(graph.loops, sccs, regions)
      ensures Distinct(Names(regions))
    {
      RegionNamesDistinct(graph, sccs, regions);
    }
  }

  lemma RegionNamesDistinct(graph: GraphSpec, sccs: seq<seq<Id>>, regions: seq<Region>)
    requires WellDeclared(graph) && forall l :: l in graph.loops ==> l.id !in Known(graph)
    requires SccsInOrder(ImmediateGraph(graph), sccs) && RegionsRight(graph.loops, sccs, regions)
    ensures Distinct(Names(regions))
  {
    hide WellDeclared, SccsInOrder;
    forall i, j | 0 <= i < j < |regions| ensures Names(regions)[i] != Names(regions)[j] {
      RegionNameApart(graph, sccs, regions, i, j);
    }
  }

  lemma SccSetsDiffer(g: Graph<Id>, sccs: seq<seq<Id>>, i: nat, j: nat)
    requires SccsInOrder(g, sccs) && i < j < |sccs|
    ensures Elements(sccs[i]) != Elements(sccs[j]) && sccs[i][0] != sccs[j][0]
  {
    hide Mutual, Edge, Sorted, Distinct;
    assert sccs[i][0] in Elements(sccs[i]) && sccs[j][0] in sccs[j];
    assert sccs[i][0] !in sccs[j];
  }

  lemma RegionNameApart(graph: GraphSpec, sccs: seq<seq<Id>>, regions: seq<Region>, i: nat, j: nat)
    requires WellDeclared(graph) && forall l :: l in graph.loops ==> l.id !in Known(graph)
    requires SccsInOrder(ImmediateGraph(graph), sccs) && RegionsRight(graph.loops, sccs, regions)
    requires i < j < |regions|
    ensures regions[i].id != regions[j].id
  {
    hide LoopsOk, LoopsAreCycles, Sorted, Distinct, Edge, SameComponentSet, IsCyclic, Mutual;
    var known, loops := Known(graph), graph.loops;
    var m: nat :| IsFirstMatch(loops, sccs[i], m) && regions[i] == Region(RegionId(loops, sccs[i], i, m), sccs[i], m < |loops|);
    var n: nat :| IsFirstMatch(loops, sccs[j], n) && regions[j] == Region(RegionId(loops, sccs[j], j, n), sccs[j], n < |loops|);
    RegionNameKind(known, graph.edges, loops, sccs, i, m);
    RegionNameKind(known, graph.edges, loops, sccs, j, n);
    SccSetsDiffer(ImmediateGraph(graph), sccs, i, j);
    if m < |loops| && n < |loops| && loops[m].id == loops[n].id {
      SharedMeansSame(loops, known, m, n, "");
      LoopOkAt(loops, known, m);
      MatchIffClass(known, graph.edges, sccs, loops[m], i);
      MatchIffClass(known, graph.edges, sccs, loops[m], j);
    }
    assert m < |loops| ==> loops[m] in loops;
    assert n < |loops| ==> loops[n] in loops;
  }

  /** A region without a loop is a single component and named after it. */
  lemma RegionNameKind(known: set<Id>, edges: seq<EdgeSpec>, loops: seq<LoopSpec>, sccs: seq<seq<Id>>, i: nat, n: nat)
    requires SccsInOrder(ImmediateEdges(known, edges), sccs) && LoopsOk(loops, known) && i < |sccs|
    requires LoopsAreCycles(ImmediateEdges(known, edges), loops) && IsFirstMatch(loops, sccs[i], n)
    ensures sccs[i] != []
    ensures n == |loops| ==> RegionId(loops, sccs[i], i, n) == sccs[i][0] && sccs[i][0] in known
  {
    hide LoopsOk, LoopsAreCycles, SameComponentSet, HasSelfLoop;
    MatchesIff(loops, sccs[i], n);
    SccDeclared(known, edges, loops, sccs, i);
    hide Sorted, Distinct, Edge, Mutual;
    assert sccs[i][0] in sccs[i];
  }
}
