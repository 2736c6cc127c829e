/** Tarjan's strongly connected components over the immediate edges of a graph. */
module Scc {
  import opened Ids
  import opened Digraph

  ghost predicate Mutual(g: Graph<Id>, a: Id, b: Id) {
    Reach(g, a, b) && Reach(g, b, a)
  }

  /** The part of the search state the proof talks about. classOf numbers the finished nodes by the
      component they were put in. */
  datatype Search = Search(indexOf: map<Id, nat>, stack: seq<Id>, classOf: map<Id, nat>)

  /** Indices grow along the stack. */
  ghost predicate StackOrdered(s: Search) {
    && (forall i :: 0 <= i < |s.stack| ==> s.stack[i] in s.indexOf)
    && (forall i, j :: 0 <= i < j < |s.stack| ==> s.indexOf[s.stack[i]] < s.indexOf[s.stack[j]])
  }

  /** A visited node is either on the stack or finished, never both. */
  ghost predicate Partitioned(s: Search) {
    && (forall v :: v in s.indexOf <==> v in s.stack || v in s.classOf)
    && (forall v :: v in s.stack ==> v !in s.classOf)
  }

  /** Finished nodes share a class exactly when they are mutually reachable. */
  ghost predicate ClassesExact(g: Graph<Id>, classOf: map<Id, nat>) {
    forall v, w {:trigger Mutual(g, v, w)} ::
      v in classOf ==> (Mutual(g, v, w) <==> w in classOf && classOf[w] == classOf[v])
  }

  /** No edge leads from a finished node to a later class or to an unfinished node. */
  ghost predicate ClassesOrdered(g: Graph<Id>, classOf: map<Id, nat>) {
    forall v, w {:trigger Edge(g, v, w)} ::
      v in classOf && Edge(g, v, w) ==> w in classOf && classOf[w] <= classOf[v]
  }

  /** Only nodes whose call is still running may have unvisited successors. */
  ghost predicate BlackClosed(g: Graph<Id>, s: Search, gray: set<Id>) {
    forall v, w {:trigger Edge(g, v, w)} ::
      v in s.indexOf && v !in gray && Edge(g, v, w) ==> w in s.indexOf
  }

  ghost predicate StackChained(g: Graph<Id>, s: Search) {
    forall i, j {:trigger Reach(g, s.stack[i], s.stack[j])} ::
      0 <= i <= j < |s.stack| ==> Reach(g, s.stack[i], s.stack[j])
  }

  ghost predicate LeadsTo(g: Graph<Id>, s: Search, y: Id, x: Id) {
    x in s.indexOf && y in s.indexOf && s.indexOf[x] <= s.indexOf[y] && Reach(g, y, x)
  }

  /** From every node on the stack some node whose call is still running, and lower down, can be reached. */
  ghost predicate StackLeadsToGray(g: Graph<Id>, s: Search, gray: set<Id>) {
    forall y :: y in s.stack ==> exists x :: x in gray && LeadsTo(g, s, y, x)
  }

  /** The invariant of the depth-first search; gray holds the nodes whose call is still running. */
  ghost predicate Inv(g: Graph<Id>, s: Search, gray: set<Id>) {
    && StackOrdered(s) && Partitioned(s)
    && ClassesExact(g, s.classOf) && ClassesOrdered(g, s.classOf)
    && (forall x :: x in gray ==> x in s.stack)
    && BlackClosed(g, s, gray) && StackChained(g, s) && StackLeadsToGray(g, s, gray)
  }

  /** What a later state keeps of an earlier one. */
  ghost predicate Extends(s: Search, t: Search) {
    && s.stack <= t.stack
    && (forall v :: v in s.indexOf ==> v in t.indexOf && t.indexOf[v] == s.indexOf[v])
    && (forall v :: v in s.classOf ==> v in t.classOf && t.classOf[v] == s.classOf[v])
  }

  /** low is at most the index of every node below `base` that an edge from position `from` on hits. */
  ghost predicate LowBounds(g: Graph<Id>, s: Search, base: nat, from: nat, low: nat) {
    forall i, j {:trigger Edge(g, s.stack[i], s.stack[j])} ::
      from <= i < |s.stack| && 0 <= j < base <= |s.stack| && Edge(g, s.stack[i], s.stack[j]) ==>
        s.stack[j] in s.indexOf && low <= s.indexOf[s.stack[j]]
  }

  ghost predicate HasIndex(g: Graph<Id>, s: Search, v: Id, y: Id, low: nat) {
    y in s.indexOf && s.indexOf[y] == low && Reach(g, v, y)
  }

  /** low is the index of a node among the first `bound` of the stack that v reaches. */
  ghost predicate LowWitness(g: Graph<Id>, s: Search, bound: nat, v: Id, low: nat) {
    exists j :: 0 <= j < bound <= |s.stack| && HasIndex(g, s, v, s.stack[j], low)
  }

  // ----- entering a node

  ghost function Pushed(s: Search, v: Id, index: nat): Search {
    Search(s.indexOf[v := index], s.stack + [v], s.classOf)
  }

  lemma PushStackShape(s: Search, v: Id, index: nat)
    requires StackOrdered(s) && Partitioned(s) && v !in s.indexOf
    requires forall x :: x in s.indexOf ==> s.indexOf[x] < index
    ensures StackOrdered(Pushed(s, v, index)) && Partitioned(Pushed(s, v, index))
  {
  }

  lemma StackReaches(g: Graph<Id>, s: Search, gray: set<Id>, y: Id, v: Id)
    requires StackLeadsToGray(g, s, gray) && y in s.stack
    requires forall x :: x in gray ==> Reach(g, x, v)
    ensures Reach(g, y, v)
  {
    var x :| x in gray && LeadsTo(g, s, y, x);
    ReachTransitive(g, y, x, v);
  }

  lemma PushChain(g: Graph<Id>, s: Search, gray: set<Id>, v: Id, index: nat)
    requires StackChained(g, s) && StackLeadsToGray(g, s, gray)
    requires forall x :: x in gray ==> Reach(g, x, v)
    ensures StackChained(g, Pushed(s, v, index))
  {
    hide Reach;
    var t := Pushed(s, v, index);
    forall i, j | 0 <= i <= j < |t.stack| ensures Reach(g, t.stack[i], t.stack[j]) {
      if i == |s.stack| {
        ReachSelf(g, v);
      } else if j == |s.stack| {
        StackReaches(g, s, gray, s.stack[i], v);
      } else {
        assert Reach(g, s.stack[i], s.stack[j]);
      }
    }
  }

  lemma PushLeads(g: Graph<Id>, s: Search, gray: set<Id>, v: Id, index: nat)
    requires StackLeadsToGray(g, s, gray) && v !in s.indexOf
    ensures StackLeadsToGray(g, Pushed(s, v, index), gray + {v})
  {
    hide Reach;
    var t := Pushed(s, v, index);
    forall y | y in t.stack ensures exists x :: x in gray + {v} && LeadsTo(g, t, y, x) {
      if y in s.stack {
        var x :| x in gray && LeadsTo(g, s, y, x);
        assert LeadsTo(g, t, y, x);
      } else {
        ReachSelf(g, v);
        assert LeadsTo(g, t, v, v);
      }
    }
  }

  lemma PushKeepsInv(g: Graph<Id>, s: Search, gray: set<Id>, v: Id, index: nat)
    requires Inv(g, s, gray) && v !in s.indexOf
    requires forall x :: x in s.indexOf ==> s.indexOf[x] < index
    requires forall x :: x in gray ==> Reach(g, x, v)
    ensures Inv(g, Pushed(s, v, index), gray + {v})
  {
    hide Reach;
    PushStackShape(s, v, index);
    PushChain(g, s, gray, v, index);
    PushLeads(g, s, gray, v, index);
  }

  // ----- leaving a node that is not the root of its component

  lemma LeaveLeads(g: Graph<Id>, s: Search, gray: set<Id>, v: Id, base: nat, low: nat)
    requires StackOrdered(s) && StackLeadsToGray(g, s, gray + {v})
    requires base < |s.stack| && s.stack[base] == v && LowWitness(g, s, base, v, low)
    ensures StackLeadsToGray(g, s, gray)
  {
    hide Reach;
    var j :| 0 <= j < base && HasIndex(g, s, v, s.stack[j], low);
    var z := s.stack[j];
    assert z in s.stack;
    var x :| x in gray + {v} && LeadsTo(g, s, z, x);
    assert s.indexOf[s.stack[j]] < s.indexOf[s.stack[base]];
    assert x in gray;
    ReachTransitive(g, v, z, x);
    forall y | y in s.stack ensures exists u :: u in gray && LeadsTo(g, s, y, u) {
      var u :| u in gray + {v} && LeadsTo(g, s, y, u);
      if u == v {
        ReachTransitive(g, y, v, x);
        assert LeadsTo(g, s, y, x);
      }
    }
  }

  lemma BlackAfter(g: Graph<Id>, s: Search, t: Search, gray: set<Id>, v: Id)
    requires BlackClosed(g, s, gray + {v}) && t.indexOf == s.indexOf
    requires forall w :: Edge(g, v, w) ==> w in s.indexOf
    ensures BlackClosed(g, t, gray)
  {
    hide Edge;
  }

  lemma LeaveKeepsInv(g: Graph<Id>, s: Search, gray: set<Id>, v: Id, base: nat, low: nat)
    requires Inv(g, s, gray + {v}) && base < |s.stack| && s.stack[base] == v
    requires forall w :: Edge(g, v, w) ==> w in s.indexOf
    requires LowWitness(g, s, base, v, low)
    ensures Inv(g, s, gray)
  {
    hide StackOrdered, Partitioned, StackChained, StackLeadsToGray, ClassesExact, ClassesOrdered, LowWitness, BlackClosed, Edge;
    LeaveLeads(g, s, gray, v, base, low);
    BlackAfter(g, s, s, gray, v);
  }

  // ----- leaving the root of a component

  ghost predicate OnTop(s: Search, base: nat, y: Id) {
    exists k :: base <= k < |s.stack| && s.stack[k] == y
  }

  ghost function Popped(s: Search, base: nat, cls: nat): Search
    requires base <= |s.stack|
  {
    Search(s.indexOf, s.stack[..base], map v | v in s.classOf.Keys + Elements(s.stack[base..]) ::
      if v in s.classOf then s.classOf[v] else cls)
  }

  /** v is the root: nothing below it is reached by an edge from its part of the stack. */
  ghost predicate AtRoot(g: Graph<Id>, s: Search, gray: set<Id>, v: Id, base: nat) {
    && v !in gray && base < |s.stack| && s.stack[base] == v && v in s.indexOf
    && (forall x :: x in gray ==> x in s.indexOf && s.indexOf[x] < s.indexOf[v] && Reach(g, x, v))
    && (forall w :: Edge(g, v, w) ==> w in s.indexOf)
    && LowBounds(g, s, base, base, s.indexOf[v])
  }

  /** The nodes from the root's position on are mutually reachable with it. */
  lemma TopIsMutual(g: Graph<Id>, s: Search, gray: set<Id>, v: Id, base: nat, y: Id)
    requires StackChained(g, s) && StackLeadsToGray(g, s, gray + {v})
    requires AtRoot(g, s, gray, v, base) && OnTop(s, base, y)
    ensures Mutual(g, v, y)
  {
    hide Reach;
    var k :| base <= k < |s.stack| && s.stack[k] == y;
    assert Reach(g, s.stack[base], s.stack[k]);
    ReachSelf(g, v);
    StackReaches(g, s, gray + {v}, y, v);
  }

  /** No edge leaves the top of the stack except to finished nodes. */
  lemma TopIsClosed(g: Graph<Id>, s: Search, gray: set<Id>, v: Id, base: nat, a: Id, b: Id)
    requires StackOrdered(s) && Partitioned(s) && BlackClosed(g, s, gray + {v})
    requires AtRoot(g, s, gray, v, base) && OnTop(s, base, a) && Edge(g, a, b)
    ensures OnTop(s, base, b) || b in s.classOf
  {
    hide Reach;
    hide Edge;
    var k :| base <= k < |s.stack| && s.stack[k] == a;
    assert s.indexOf[s.stack[base]] <= s.indexOf[s.stack[k]];
    assert a !in gray;
    assert b in s.indexOf;
    if b in s.stack {
      var j :| 0 <= j < |s.stack| && s.stack[j] == b;
      assert Edge(g, s.stack[k], s.stack[j]);
    }
  }

  /** Whatever is mutually reachable with the root is on top of the stack. */
  lemma TopIsMaximal(g: Graph<Id>, s: Search, gray: set<Id>, v: Id, base: nat, w: Id)
    requires Inv(g, s, gray + {v}) && AtRoot(g, s, gray, v, base) && Mutual(g, v, w)
    ensures OnTop(s, base, w)
  {
    hide Reach, Edge, StackOrdered, BlackClosed, StackChained, StackLeadsToGray, ClassesExact;
    var top := set y | y in s.stack && OnTop(s, base, y);
    var inside := top + s.classOf.Keys;
    forall a, b | a in inside && Edge(g, a, b) ensures b in inside {
      if a in top {
        TopIsClosed(g, s, gray, v, base, a, b);
      }
    }
    assert OnTop(s, base, v);
    ReachStaysInside(g, inside, v, w);
    if w in s.classOf {
      ReachStaysInside(g, s.classOf.Keys, w, v);
      assert false;
    }
  }

  lemma PopClassesOrdered(g: Graph<Id>, s: Search, gray: set<Id>, v: Id, base: nat, cls: nat)
    requires Inv(g, s, gray + {v}) && AtRoot(g, s, gray, v, base)
    requires forall x :: x in s.classOf ==> s.classOf[x] < cls
    ensures ClassesOrdered(g, Popped(s, base, cls).classOf)
  {
    hide Reach, Edge, StackOrdered, BlackClosed, StackChained, StackLeadsToGray, ClassesExact;
    var t := Popped(s, base, cls);
    forall a, b | a in t.classOf && Edge(g, a, b)
      ensures b in t.classOf && t.classOf[b] <= t.classOf[a]
    {
      if a !in s.classOf {
        TopMembers(s, base, a);
        TopMembers(s, base, b);
        TopIsClosed(g, s, gray, v, base, a, b);
      }
    }
  }

  lemma TopMembers(s: Search, base: nat, a: Id)
    requires base <= |s.stack|
    ensures OnTop(s, base, a) <==> a in s.stack[base..]
    ensures OnTop(s, base, a) ==> a in s.stack
  {
    if a in s.stack[base..] {
      var k :| 0 <= k < |s.stack[base..]| && s.stack[base..][k] == a;
      assert s.stack[base + k] == a;
    }
    if OnTop(s, base, a) {
      var k :| base <= k < |s.stack| && s.stack[k] == a;
      assert s.stack[base..][k - base] == a;
    }
  }

  lemma MutualTransitive(g: Graph<Id>, a: Id, b: Id, c: Id)
    requires Mutual(g, a, b) && Mutual(g, b, c)
    ensures Mutual(g, a, c) && Mutual(g, c, a)
  {
    hide Reach;
    ReachTransitive(g, a, b, c);
    ReachTransitive(g, c, b, a);
  }

  lemma PopClassesExact(g: Graph<Id>, s: Search, gray: set<Id>, v: Id, base: nat, cls: nat, a: Id, b: Id)
    requires Inv(g, s, gray + {v}) && AtRoot(g, s, gray, v, base)
    requires forall x :: x in s.classOf ==> s.classOf[x] < cls
    requires a in Popped(s, base, cls).classOf
    ensures var c := Popped(s, base, cls).classOf; Mutual(g, a, b) <==> b in c && c[b] == c[a]
  {
    hide Reach;
    TopMembers(s, base, a);
    TopMembers(s, base, b);
    if a in s.classOf {
      assert Mutual(g, a, b) <==> b in s.classOf && s.classOf[b] == s.classOf[a];
    } else {
      TopIsMutual(g, s, gray, v, base, a);
      if Mutual(g, a, b) {
        MutualTransitive(g, v, a, b);
        TopIsMaximal(g, s, gray, v, base, b);
      }
      if OnTop(s, base, b) {
        TopIsMutual(g, s, gray, v, base, b);
        MutualTransitive(g, a, v, b);
      }
    }
  }

  lemma PopClassesAllExact(g: Graph<Id>, s: Search, gray: set<Id>, v: Id, base: nat, cls: nat)
    requires Inv(g, s, gray + {v}) && AtRoot(g, s, gray, v, base)
    requires forall x :: x in s.classOf ==> s.classOf[x] < cls
    ensures ClassesExact(g, Popped(s, base, cls).classOf)
  {
    hide Inv, Reach, Mutual;
    var c := Popped(s, base, cls).classOf;
    forall a, b | a in c ensures Mutual(g, a, b) <==> b in c && c[b] == c[a] {
      PopClassesExact(g, s, gray, v, base, cls, a, b);
    }
  }

  lemma PopStackShape(s: Search, base: nat, cls: nat)
    requires StackOrdered(s) && Partitioned(s) && base <= |s.stack|
    ensures StackOrdered(Popped(s, base, cls)) && Partitioned(Popped(s, base, cls))
  {
    PopStackOrdered(s, base, cls);
    PopPartitioned(s, base, cls);
  }

  lemma PopStackOrdered(s: Search, base: nat, cls: nat)
    requires StackOrdered(s) && base <= |s.stack|
    ensures StackOrdered(Popped(s, base, cls))
  {
  }

  lemma PopPartitioned(s: Search, base: nat, cls: nat)
    requires StackOrdered(s) && Partitioned(s) && base <= |s.stack|
    ensures Partitioned(Popped(s, base, cls))
  {
    hide Popped, OnTop, StackOrdered;
    var t := Popped(s, base, cls);
    forall v ensures (v in t.indexOf <==> v in t.stack || v in t.classOf) && (v in t.stack ==> v !in t.classOf) {
      PoppedMember(s, base, cls, v);
    }
  }

  lemma PoppedMember(s: Search, base: nat, cls: nat, v: Id)
    requires StackOrdered(s) && base <= |s.stack|
    ensures var t := Popped(s, base, cls);
      && t.indexOf == s.indexOf && (v in t.classOf <==> v in s.classOf || v in s.stack[base..])
      && (v in s.stack <==> v in t.stack || v in s.stack[base..]) && !(v in t.stack && v in s.stack[base..])
  {
    assert s.stack == s.stack[..base] + s.stack[base..];
    if v in s.stack[..base] {
      var i :| 0 <= i < base && s.stack[i] == v;
      assert forall k :: base <= k < |s.stack| ==> s.indexOf[v] < s.indexOf[s.stack[k]];
    }
  }

  lemma PopLeads(g: Graph<Id>, s: Search, gray: set<Id>, v: Id, base: nat, cls: nat)
    requires StackOrdered(s) && StackLeadsToGray(g, s, gray + {v}) && base < |s.stack| && s.stack[base] == v
    ensures StackLeadsToGray(g, Popped(s, base, cls), gray)
  {
    hide Reach;
    var t := Popped(s, base, cls);
    forall y | y in t.stack ensures exists x :: x in gray && LeadsTo(g, t, y, x) {
      var i :| 0 <= i < base && s.stack[i] == y;
      assert y in s.stack && s.indexOf[s.stack[i]] < s.indexOf[s.stack[base]];
      var x :| x in gray + {v} && LeadsTo(g, s, y, x);
      assert LeadsTo(g, t, y, x);
    }
  }

  lemma PopGray(s: Search, gray: set<Id>, v: Id, base: nat, cls: nat)
    requires StackOrdered(s) && base < |s.stack| && s.stack[base] == v
    requires forall x :: x in gray ==> x in s.stack && x in s.indexOf && s.indexOf[x] < s.indexOf[v]
    ensures forall x :: x in gray ==> x in Popped(s, base, cls).stack
  {
    forall x | x in gray ensures x in Popped(s, base, cls).stack {
      var i :| 0 <= i < |s.stack| && s.stack[i] == x;
      assert s.stack[..base][i] == x;
    }
  }

  lemma PopChain(g: Graph<Id>, s: Search, base: nat, cls: nat)
    requires StackChained(g, s) && base <= |s.stack|
    ensures StackChained(g, Popped(s, base, cls))
  {
    hide Reach;
    var t := Popped(s, base, cls);
    forall i, j | 0 <= i <= j < |t.stack| ensures Reach(g, t.stack[i], t.stack[j]) {
      assert Reach(g, s.stack[i], s.stack[j]);
    }
  }

  lemma PopKeepsInv(g: Graph<Id>, s: Search, gray: set<Id>, v: Id, base: nat, cls: nat)
    requires Inv(g, s, gray + {v}) && AtRoot(g, s, gray, v, base)
    requires forall x :: x in s.classOf ==> s.classOf[x] < cls
    ensures Inv(g, Popped(s, base, cls), gray)
  {
    hide StackOrdered, Partitioned, StackChained, StackLeadsToGray, ClassesExact, ClassesOrdered, BlackClosed, LowBounds, Edge, Reach;
    PopClassesAllExact(g, s, gray, v, base, cls);
    PopClassesOrdered(g, s, gray, v, base, cls);
    PopStackShape(s, base, cls);
    PopLeads(g, s, gray, v, base, cls);
    PopGray(s, gray, v, base, cls);
    PopChain(g, s, base, cls);
    BlackAfter(g, s, Popped(s, base, cls), gray, v);
  }

  lemma RootPosition(g: Graph<Id>, s: Search, gray: set<Id>, v: Id, base: nat)
    requires AtRoot(g, s, gray, v, base)
    ensures base < |s.stack| && s.stack[base] == v
  {
  }

  lemma ReachesOn(g: Graph<Id>, gray: set<Id>, v: Id, w: Id)
    requires Closed(g) && Edge(g, v, w)
    requires forall x :: x in gray && x != v ==> Reach(g, x, v)
    ensures w in g && forall x :: x in gray ==> Reach(g, x, w)
  {
    hide Reach;
    ReachEdge(g, v, w);
    forall x | x in gray && x != v ensures Reach(g, x, w) {
      ReachTransitive(g, x, v, w);
    }
  }

  lemma ListsBound(components: seq<seq<Id>>, classOf: map<Id, nat>)
    requires Lists(components, classOf)
    ensures forall x :: x in classOf ==> classOf[x] < |components|
  {
  }

  lemma GrayIndexed(g: Graph<Id>, s: Search, gray: set<Id>)
    requires Inv(g, s, gray)
    ensures forall x :: x in gray ==> x in s.indexOf
  {
  }

  /** Every node is in exactly one component. */
  ghost predicate IsPartition(nodes: set<Id>, components: seq<seq<Id>>) {
    && (forall i :: 0 <= i < |components| ==> components[i] != [] && Sorted(components[i]) && Distinct(components[i]))
    && (forall i, v :: 0 <= i < |components| && v in components[i] ==> v in nodes)
    && (forall v :: v in nodes ==> exists i :: 0 <= i < |components| && v in components[i])
    && (forall i, j, v :: 0 <= i < |components| && 0 <= j < |components| && v in components[i] && v in components[j] ==> i == j)
  }

  /** Two nodes share a component exactly when each reaches the other, and the components come in reverse
      topological order: no edge leads to a later one. */
  ghost predicate SccsInOrder(g: Graph<Id>, components: seq<seq<Id>>) {
    && IsPartition(g.Keys, components)
    && forall i, j, v, w {:trigger v in components[i], w in components[j]} ::
         0 <= i < |components| && 0 <= j < |components| && v in components[i] && w in components[j] ==>
           (i == j <==> Mutual(g, v, w)) && (Edge(g, v, w) ==> j <= i)
  }

  lemma HasMember(s: seq<Id>)
    ensures s == [] || exists y :: y in s
  {
    if s != [] {
      assert s[0] in s;
    }
  }

  lemma NothingLeft(g: Graph<Id>, s: Search)
    requires Inv(g, s, {})
    ensures s.stack == [] && s.classOf.Keys == s.indexOf.Keys
  {
    hide Reach, ClassesExact, ClassesOrdered, StackChained, BlackClosed;
    HasMember(s.stack);
  }

  lemma ListsPartition(classOf: map<Id, nat>, components: seq<seq<Id>>)
    requires Lists(components, classOf)
    ensures IsPartition(classOf.Keys, components)
  {
    hide Sorted, Distinct;
    forall v | v in classOf ensures exists i :: 0 <= i < |components| && v in components[i] {
      assert v in components[classOf[v]];
    }
    forall i, j, v | 0 <= i < |components| && 0 <= j < |components| && v in components[i] && v in components[j]
      ensures i == j
    {
      assert classOf[v] == i && classOf[v] == j;
    }
  }

  lemma ListsInOrder(g: Graph<Id>, classOf: map<Id, nat>, components: seq<seq<Id>>)
    requires ClassesExact(g, classOf) && ClassesOrdered(g, classOf)
    requires Lists(components, classOf) && classOf.Keys == g.Keys
    ensures SccsInOrder(g, components)
  {
    hide Reach, Mutual, Edge, Sorted, Distinct, IsPartition;
    ListsPartition(classOf, components);
    forall i, j, v, w | 0 <= i < |components| && 0 <= j < |components| && v in components[i] && w in components[j]
      ensures (i == j <==> Mutual(g, v, w)) && (Edge(g, v, w) ==> j <= i)
    {
      assert classOf[v] == i && classOf[w] == j;
    }
  }

  // ----- the search itself

  /** The listed components hold exactly the finished nodes, each under its class number, sorted. */
  ghost predicate Lists(components: seq<seq<Id>>, classOf: map<Id, nat>) {
    && (forall v :: v in classOf ==> classOf[v] < |components|)
    && (forall i :: 0 <= i < |components| ==> components[i] != [] && Sorted(components[i]) && Distinct(components[i]))
    && (forall i, v :: 0 <= i < |components| ==> (v in components[i] <==> v in classOf && classOf[v] == i))
  }

  function Reversed(s: seq<Id>): seq<Id> {
    seq(|s|, i requires 0 <= i < |s| => s[|s| - 1 - i])
  }

  lemma ReversedSame(s: seq<Id>)
    requires Distinct(s)
    ensures Distinct(Reversed(s)) && forall x :: x in Reversed(s) <==> x in s
  {
    forall x | x in s ensures x in Reversed(s) {
      var i :| 0 <= i < |s| && s[i] == x;
      assert Reversed(s)[|s| - 1 - i] == x;
    }
  }

  lemma SortedComponent(s: Search, base: nat, component: seq<Id>)
    requires StackOrdered(s) && base < |s.stack| && component == Reversed(s.stack[base..])
    ensures var sorted := SortIds(component);
      Sorted(sorted) && Distinct(sorted) && sorted != [] && forall x :: x in sorted <==> OnTop(s, base, x)
  {
    hide Less;
    var top := s.stack[base..];
    forall i, j | 0 <= i < j < |top| ensures top[i] != top[j] {
      assert s.indexOf[s.stack[base + i]] < s.indexOf[s.stack[base + j]];
    }
    ReversedSame(top);
    SortIdsSorts(component);
    MultisetDistinct(component, SortIds(component));
    forall x ensures x in SortIds(component) <==> OnTop(s, base, x) {
      TopMembers(s, base, x);
    }
  }

  lemma AppendOne(components: seq<seq<Id>>, classOf: map<Id, nat>, component: seq<Id>, classOf': map<Id, nat>)
    requires Lists(components, classOf) && component != [] && Sorted(component) && Distinct(component)
    requires forall v :: v in component ==> v in classOf' && classOf'[v] == |components|
    requires forall v :: v in classOf ==> v in classOf' && classOf'[v] == classOf[v]
    requires forall v :: v in classOf' ==> v in component || v in classOf
    ensures Lists(components + [component], classOf')
  {
    hide Sorted, Distinct;
    var all := components + [component];
    forall i, v | 0 <= i < |all| ensures v in all[i] <==> v in classOf' && classOf'[v] == i {
      if i < |components| {
        assert v in components[i] <==> v in classOf && classOf[v] == i;
      }
    }
  }

  lemma PoppedClass(s: Search, base: nat, cls: nat, v: Id)
    requires Partitioned(s) && base <= |s.stack|
    ensures var c := Popped(s, base, cls).classOf;
      && (OnTop(s, base, v) ==> v in c && c[v] == cls)
      && (v in s.classOf ==> v in c && c[v] == s.classOf[v])
      && (v in c ==> OnTop(s, base, v) || v in s.classOf)
  {
    TopMembers(s, base, v);
  }

  lemma AppendLists(components: seq<seq<Id>>, s: Search, base: nat, component: seq<Id>)
    requires Lists(components, s.classOf) && StackOrdered(s) && Partitioned(s) && base < |s.stack|
    requires component == Reversed(s.stack[base..])
    ensures Lists(components + [SortIds(component)], Popped(s, base, |components|).classOf)
  {
    SortedComponent(s, base, component);
    hide Lists, StackOrdered, Partitioned, Sorted, Distinct, SortIds, OnTop, Popped, Reversed;
    forall v ensures var c := Popped(s, base, |components|).classOf;
      && (OnTop(s, base, v) ==> v in c && c[v] == |components|)
      && (v in s.classOf ==> v in c && c[v] == s.classOf[v])
      && (v in c ==> OnTop(s, base, v) || v in s.classOf)
    {
      PoppedClass(s, base, |components|, v);
    }
    AppendOne(components, s.classOf, SortIds(component), Popped(s, base, |components|).classOf);
  }

  // ----- low indices while the successors of a node are scanned

  /** What a finished call for node, started in s0 with index next0, guarantees about its low index. */
  ghost predicate Returned(g: Graph<Id>, s0: Search, next0: nat, s: Search, node: Id, low: nat) {
    && node in s.indexOf
    && (forall v :: v in s.indexOf && v !in s0.indexOf ==> s.indexOf[v] >= next0)
    && (node in s.classOf ==> low >= next0)
    && (node in s.stack ==> LowWitness(g, s, |s0.stack|, node, low))
    && LowBounds(g, s, |s0.stack|, |s0.stack|, low)
  }

  ghost predicate Scanned(g: Graph<Id>, s: Search, base: nat, w: Id, low: nat) {
    w in s.indexOf && forall i :: 0 <= i < base <= |s.stack| && s.stack[i] == w ==> low <= s.indexOf[w]
  }

  /** The call for node has pushed it and scanned its first k successors. */
  ghost predicate Scanning(g: Graph<Id>, s0: Search, next0: nat, s: Search, node: Id, k: nat, low: nat)
    requires node in g && k <= |g[node]|
  {
    && Extends(Pushed(s0, node, next0), s) && low <= next0
    && LowWitness(g, s, |s0.stack| + 1, node, low)
    && (forall j :: 0 <= j < k ==> Scanned(g, s, |s0.stack|, g[node][j], low))
    && LowBounds(g, s, |s0.stack|, |s0.stack| + 1, low)
    && (forall v :: v in s.indexOf && v !in s0.indexOf ==> s.indexOf[v] >= next0)
  }

  /** The nodes whose call was already running when node was entered. */
  ghost predicate GraySet(g: Graph<Id>, s0: Search, gray: set<Id>, node: Id, next0: nat) {
    forall x :: x in gray ==> x in s0.indexOf && s0.indexOf[x] < next0 && Reach(g, x, node)
  }

  lemma ScanStart(g: Graph<Id>, s0: Search, next0: nat, node: Id)
    requires node in g && node !in s0.indexOf
    ensures Scanning(g, s0, next0, Pushed(s0, node, next0), node, 0, next0)
  {
    var s := Pushed(s0, node, next0);
    ReachSelf(g, node);
    assert HasIndex(g, s, node, s.stack[|s0.stack|], next0);
  }

  lemma ExtendsStack(s: Search, t: Search, i: nat)
    requires Extends(s, t) && i < |s.stack|
    ensures i < |t.stack| && t.stack[i] == s.stack[i]
  {
  }

  lemma ExtendsTransitive(s: Search, t: Search, u: Search)
    requires Extends(s, t) && Extends(t, u)
    ensures Extends(s, u)
  {
  }

  lemma WitnessKept(g: Graph<Id>, s: Search, t: Search, bound: nat, v: Id, low: nat)
    requires LowWitness(g, s, bound, v, low) && Extends(s, t)
    ensures LowWitness(g, t, bound, v, low)
  {
    hide Reach;
    var j :| 0 <= j < bound <= |s.stack| && HasIndex(g, s, v, s.stack[j], low);
    assert HasIndex(g, t, v, t.stack[j], low);
  }

  lemma ScannedKept(g: Graph<Id>, s: Search, t: Search, base: nat, w: Id, low: nat, low': nat)
    requires Scanned(g, s, base, w, low) && Extends(s, t) && low' <= low && base <= |s.stack|
    ensures Scanned(g, t, base, w, low')
  {
  }

  /** The nodes the recursive call left on the stack obey the smaller of both low indices. */
  lemma BoundsJoined(g: Graph<Id>, s: Search, t: Search, base: nat, from: nat, low: nat, low1: nat, m: nat)
    requires Extends(s, t) && base <= from <= |s.stack| && m <= low && m <= low1
    requires LowBounds(g, s, base, from, low) && LowBounds(g, t, |s.stack|, |s.stack|, low1)
    ensures LowBounds(g, t, base, from, m)
  {
    hide Edge;
    forall i, j | from <= i < |t.stack| && 0 <= j < base && Edge(g, t.stack[i], t.stack[j])
      ensures t.stack[j] in t.indexOf && m <= t.indexOf[t.stack[j]]
    {
      ExtendsStack(s, t, j);
      if i < |s.stack| {
        assert Edge(g, s.stack[i], s.stack[j]);
      }
    }
  }

  lemma WitnessThrough(g: Graph<Id>, s: Search, t: Search, base: nat, node: Id, w: Id, low1: nat)
    requires Extends(s, t) && StackOrdered(t) && base < |s.stack| && s.stack[base] == node && node in t.indexOf
    requires Edge(g, node, w) && LowWitness(g, t, |s.stack|, w, low1) && low1 < t.indexOf[node]
    ensures LowWitness(g, t, base + 1, node, low1)
  {
    hide Reach, Edge;
    var j :| 0 <= j < |s.stack| && HasIndex(g, t, w, t.stack[j], low1);
    assert j <= base;
    ReachEdge(g, node, w);
    ReachTransitive(g, node, w, t.stack[j]);
    assert HasIndex(g, t, node, t.stack[j], low1);
  }

  lemma ScannedNew(g: Graph<Id>, s: Search, t: Search, base: nat, w: Id, low: nat)
    requires StackOrdered(s) && Extends(s, t) && base <= |s.stack| && w !in s.indexOf && w in t.indexOf
    ensures Scanned(g, t, base, w, low)
  {
    forall i | 0 <= i < base ensures t.stack[i] != w {
      assert s.stack[i] in s.indexOf;
    }
  }

  lemma ListedEdge(g: Graph<Id>, node: Id, k: nat)
    requires node in g && k < |g[node]|
    ensures Edge(g, node, g[node][k])
  {
  }

  lemma ScanRecursed(g: Graph<Id>, s0: Search, next0: nat, s: Search, node: Id, k: nat, low: nat,
                     next1: nat, t: Search, low1: nat)
    requires node in g && k < |g[node]| && Scanning(g, s0, next0, s, node, k, low)
    requires g[node][k] !in s.indexOf && Extends(s, t) && StackOrdered(s) && StackOrdered(t) && Partitioned(t) && next0 < next1
    requires Returned(g, s, next1, t, g[node][k], low1)
    ensures Scanning(g, s0, next0, t, node, k + 1, if low1 < low then low1 else low)
  {
    hide Reach, Edge, LowWitness, LowBounds;
    var w := g[node][k];
    var m := if low1 < low then low1 else low;
    var base := |s0.stack|;
    ExtendsTransitive(Pushed(s0, node, next0), s, t);
    ExtendsStack(Pushed(s0, node, next0), s, base);
    ListedEdge(g, node, k);
    if low1 < low {
      assert w in t.stack;
      WitnessThrough(g, s, t, base, node, w, low1);
    } else {
      WitnessKept(g, s, t, base + 1, node, low);
    }
    BoundsJoined(g, s, t, base, base + 1, low, low1, m);
    forall j | 0 <= j < k + 1 ensures Scanned(g, t, base, g[node][j], m) {
      if j < k {
        ScannedKept(g, s, t, base, g[node][j], low, m);
      } else {
        ScannedNew(g, s, t, base, w, m);
      }
    }
  }

  /** A successor already on the stack lowers the low index to its own index; a finished one does not. */
  lemma ScanVisited(g: Graph<Id>, s0: Search, next0: nat, s: Search, node: Id, k: nat, low: nat, m: nat)
    requires node in g && k < |g[node]| && Scanning(g, s0, next0, s, node, k, low)
    requires StackOrdered(s) && Partitioned(s) && g[node][k] in s.indexOf
    requires m == if g[node][k] in s.stack && s.indexOf[g[node][k]] < low then s.indexOf[g[node][k]] else low
    ensures Scanning(g, s0, next0, s, node, k + 1, m)
  {
    hide Reach, Edge, LowWitness, Partitioned;
    var w := g[node][k];
    var base := |s0.stack|;
    ExtendsStack(Pushed(s0, node, next0), s, base);
    ListedEdge(g, node, k);
    if m < low {
      VisitedWitness(g, s, base, node, w);
    }
  }

  lemma VisitedWitness(g: Graph<Id>, s: Search, base: nat, node: Id, w: Id)
    requires StackOrdered(s) && base < |s.stack| && s.stack[base] == node
    requires Edge(g, node, w) && w in s.stack && s.indexOf[w] <= s.indexOf[node]
    ensures LowWitness(g, s, base + 1, node, s.indexOf[w])
  {
    hide Reach, Edge;
    ReachEdge(g, node, w);
    var j :| 0 <= j < |s.stack| && s.stack[j] == w;
    assert j <= base;
    assert HasIndex(g, s, node, s.stack[j], s.indexOf[w]);
  }

  lemma StackDistinct(s: Search)
    requires StackOrdered(s)
    ensures Distinct(s.stack)
  {
    forall i, j | 0 <= i < j < |s.stack| ensures s.stack[i] != s.stack[j] {
      assert s.indexOf[s.stack[i]] < s.indexOf[s.stack[j]];
    }
  }

  /** After the last successor, a low index equal to the node's own index marks the root of a component. */
  lemma ScanEndsAtRoot(g: Graph<Id>, s0: Search, next0: nat, s: Search, node: Id, gray: set<Id>)
    requires node in g && Scanning(g, s0, next0, s, node, |g[node]|, next0)
    requires StackOrdered(s0) && StackOrdered(s) && node !in s0.indexOf && GraySet(g, s0, gray, node, next0)
    ensures AtRoot(g, s, gray, node, |s0.stack|)
  {
    hide Reach;
    var base := |s0.stack|;
    ExtendsStack(Pushed(s0, node, next0), s, base);
    forall w | Edge(g, node, w) ensures Scanned(g, s, base, w, next0) {
      var k :| 0 <= k < |g[node]| && g[node][k] == w;
    }
  }

  lemma ScanningKnows(g: Graph<Id>, s0: Search, next0: nat, s: Search, node: Id, k: nat, low: nat)
    requires node in g && k <= |g[node]| && Scanning(g, s0, next0, s, node, k, low) && node !in s0.indexOf
    ensures node in s.indexOf && s.indexOf[node] == next0 && s0.indexOf.Keys <= s.indexOf.Keys
    ensures Extends(s0, s) && |s0.stack| < |s.stack| && s.stack[|s0.stack|] == node && low <= next0
  {
    hide LowWitness, LowBounds, Scanned, Reach;
    ExtendsTransitive(s0, Pushed(s0, node, next0), s);
  }

  lemma InvKnows(g: Graph<Id>, s: Search, gray: set<Id>)
    requires Inv(g, s, gray)
    ensures StackOrdered(s) && Partitioned(s)
  {
    hide StackOrdered, Partitioned;
  }

  lemma ScanEndsBelow(g: Graph<Id>, s0: Search, next0: nat, s: Search, node: Id, low: nat)
    requires node in g && Scanning(g, s0, next0, s, node, |g[node]|, low) && low < next0
    requires StackOrdered(s) && Partitioned(s)
    ensures Returned(g, s0, next0, s, node, low) && LowWitness(g, s, |s0.stack|, node, low)
    ensures forall w :: Edge(g, node, w) ==> w in s.indexOf
  {
    hide Reach;
    var base := |s0.stack|;
    ExtendsStack(Pushed(s0, node, next0), s, base);
    var j :| 0 <= j < base + 1 <= |s.stack| && HasIndex(g, s, node, s.stack[j], low);
    assert j < base;
    forall w | Edge(g, node, w) ensures Scanned(g, s, base, w, low) {
      var k :| 0 <= k < |g[node]| && g[node][k] == w;
    }
  }

  lemma PopExtends(s0: Search, s: Search, node: Id, index: nat, cls: nat)
    requires Extends(Pushed(s0, node, index), s) && node !in s0.indexOf && StackOrdered(s0) && Partitioned(s)
    ensures |s0.stack| < |s.stack| && s.stack[|s0.stack|] == node
    ensures var t := Popped(s, |s0.stack|, cls);
      Extends(s0, t) && t.stack == s0.stack && node in t.classOf && node !in t.stack
  {
    var base := |s0.stack|;
    ExtendsStack(Pushed(s0, node, index), s, base);
    var t := Popped(s, base, cls);
    assert t.stack == s0.stack;
    assert node in s.stack[base..] by { assert s.stack[base..][0] == node; }
  }

  lemma PopReturns(g: Graph<Id>, s0: Search, next0: nat, s: Search, node: Id, cls: nat)
    requires node in g && Scanning(g, s0, next0, s, node, |g[node]|, next0)
    requires StackOrdered(s0) && Partitioned(s) && node !in s0.indexOf
    ensures |s0.stack| < |s.stack|
    ensures var t := Popped(s, |s0.stack|, cls); Extends(s0, t) && Returned(g, s0, next0, t, node, next0)
  {
    hide Reach, Edge, LowWitness, LowBounds, Scanned, Partitioned;
    PopExtends(s0, s, node, next0, cls);
    BoundsVacuous(g, Popped(s, |s0.stack|, cls), |s0.stack|, next0);
  }

  lemma BoundsVacuous(g: Graph<Id>, s: Search, base: nat, low: nat)
    requires |s.stack| <= base
    ensures LowBounds(g, s, base, base, low)
  {
  }

  class SccFinder {
    const edges: Graph<Id>
    var indexOf: map<Id, nat>
    var lowlink: map<Id, nat>
    var onStack: set<Id>
    var stack: seq<Id>
    var nextIndex: nat
    var components: seq<seq<Id>>
    ghost var classOf: map<Id, nat>
    ghost var gray: set<Id>

    ghost function State(): Search
      reads this
    {
      Search(indexOf, stack, classOf)
    }

    ghost predicate Valid()
      reads this
    {
      && Closed(edges)
      && Inv(edges, State(), gray)
      && (forall v :: v in indexOf ==> v in edges && indexOf[v] < nextIndex)
      && onStack == Elements(stack)
      && Lists(components, classOf)
    }

    constructor (edges: Graph<Id>)
      requires Closed(edges)
      ensures Valid() && this.edges == edges && indexOf == map[] && stack == [] && gray == {}
    {
      this.edges := edges;
      indexOf, lowlink, onStack, stack, nextIndex, components := map[], map[], {}, [], 0, [];
      classOf, gray := map[], {};
    }

    /** Pops the stack down to and including node. */
    method PopComponent(node: Id, ghost base: nat) returns (component: seq<Id>)
      requires base < |stack| && stack[base] == node && Distinct(stack) && onStack == Elements(stack)
      modifies `stack, `onStack
      ensures stack == old(stack)[..base] && onStack == Elements(stack)
      ensures component == Reversed(old(stack)[base..])
    {
      component := [];
      while stack != []
        invariant base < |stack| <= |old(stack)| && stack == old(stack)[..|stack|]
        invariant onStack == Elements(stack)
        invariant component == Reversed(old(stack)[|stack|..])
        decreases |stack|
      {
        var value := stack[|stack| - 1];
        ghost var before := stack;
        stack := stack[..|stack| - 1];
        assert before == stack + [value];
        onStack := onStack - {value};
        component := component + [value];
        assert component == Reversed(old(stack)[|stack|..]);
        if value == node {
          assert |stack| == base;
          break;
        }
      }
    }

    /** The start of a visit: node gets the next index and goes on the stack. */
    method Enter(node: Id)
      requires Valid() && node in edges && node !in indexOf
      requires forall x :: x in gray ==> Reach(edges, x, node)
      modifies this
      ensures Valid() && gray == old(gray) + {node} && components == old(components)
      ensures State() == Pushed(old(State()), node, old(nextIndex)) && nextIndex == old(nextIndex) + 1
      ensures lowlink == old(lowlink)[node := old(nextIndex)]
    {
      hide Reach, StackOrdered, Partitioned, ClassesExact, ClassesOrdered, BlackClosed, StackChained, StackLeadsToGray,
        Lists, Closed;
      PushKeepsInv(edges, State(), gray, node, nextIndex);
      indexOf := indexOf[node := nextIndex];
      lowlink := lowlink[node := nextIndex];
      nextIndex := nextIndex + 1;
      stack := stack + [node];
      onStack := onStack + {node};
      gray := gray + {node};
    }

    /** The end of a visit to the root of a component: the component is popped off the stack. */
    method CloseComponent(node: Id, ghost s0: Search, ghost next0: nat, ghost others: set<Id>)
      requires Valid() && gray == others + {node} && node in edges
      requires Scanning(edges, s0, next0, State(), node, |edges[node]|, next0)
      requires StackOrdered(s0) && node !in s0.indexOf && GraySet(edges, s0, others, node, next0)
      modifies `stack, `onStack, `components, `classOf, `gray
      ensures Valid() && gray == others && Extends(s0, State())
      ensures Returned(edges, s0, next0, State(), node, next0)
    {
      hide Reach, Edge, StackOrdered, Partitioned, ClassesExact, ClassesOrdered, BlackClosed, StackChained,
        StackLeadsToGray, LowWitness, LowBounds, Less, Closed, Sorted, Distinct, Scanned, Scanning, Extends, Returned,
        Lists, SortIds, Mutual, GraySet, AtRoot;
      ghost var s := State();
      ghost var base := |s0.stack|;
      PopReturns(edges, s0, next0, s, node, |components|);
      ScanEndsAtRoot(edges, s0, next0, s, node, others);
      ListsBound(components, classOf);
      PopKeepsInv(edges, s, others, node, base, |components|);
      StackDistinct(s);
      RootPosition(edges, s, others, node, base);
      var component := PopComponent(node, base);
      AppendLists(components, s, base, component);
      classOf := Popped(s, base, |components|).classOf;
      components := components + [SortIds(component)];
      gray := others;
    }

    /** Visits node and everything unvisited it reaches; its low index is left in lowlink. */
    method StrongConnect(node: Id)
      requires Valid() && node in edges && node !in indexOf
      requires forall x :: x in gray ==> Reach(edges, x, node)
      modifies this
      ensures Valid() && gray == old(gray) && Extends(old(State()), State())
      ensures old(nextIndex) <= nextIndex && node in lowlink
      ensures forall v :: v in old(indexOf) && v in old(lowlink) ==> v in lowlink && lowlink[v] == old(lowlink[v])
      ensures Returned(edges, old(State()), old(nextIndex), State(), node, lowlink[node])
      decreases edges.Keys - indexOf.Keys, 0
    {
      hide Reach, ClassesExact, ClassesOrdered, BlackClosed, StackChained, StackLeadsToGray, Lists, LowWitness, LowBounds,
        Scanned, Less, Closed, StackOrdered, Partitioned, Scanning, Returned, Pushed, Inv, Extends;
      ghost var s0, index := State(), nextIndex;
      InvKnows(edges, s0, gray);
      GrayIndexed(edges, s0, gray);
      ScanStart(edges, s0, index, node);
      Enter(node);
      var successors := edges[node];
      var k := 0;
      while k < |successors|
        invariant k <= |successors|
        invariant Valid() && gray == old(gray) + {node} && node in lowlink && index < nextIndex
        invariant Scanning(edges, s0, index, State(), node, k, lowlink[node])
        invariant forall v :: v in old(indexOf) && v in old(lowlink) ==> v in lowlink && lowlink[v] == old(lowlink[v])
      {
        ScanningKnows(edges, s0, index, State(), node, k, lowlink[node]);
        Scan(node, k, s0, index);
        k := k + 1;
      }
      ScanningKnows(edges, s0, index, State(), node, k, lowlink[node]);
      InvKnows(edges, State(), gray);
      if lowlink[node] == indexOf[node] {
        CloseComponent(node, s0, index, old(gray));
      } else {
        ScanEndsBelow(edges, s0, index, State(), node, lowlink[node]);
        LeaveKeepsInv(edges, State(), old(gray), node, |s0.stack|, lowlink[node]);
        gray := old(gray);
      }
    }

    /** One successor of node: visited first if need be, then folded into the low index of node. */
    method Scan(node: Id, k: nat, ghost s0: Search, ghost next0: nat)
      requires Valid() && node in edges && node in gray && node in lowlink && next0 < nextIndex && k < |edges[node]|
      requires Scanning(edges, s0, next0, State(), node, k, lowlink[node])
      requires forall x :: x in gray && x != node ==> Reach(edges, x, node)
      modifies this
      ensures Valid() && gray == old(gray) && node in lowlink && next0 < nextIndex && Extends(old(State()), State())
      ensures Scanning(edges, s0, next0, State(), node, k + 1, lowlink[node])
      ensures forall v :: v in old(indexOf) && v in old(lowlink) && v != node ==> v in lowlink && lowlink[v] == old(lowlink[v])
      decreases edges.Keys - indexOf.Keys, 1
    {
      hide ClassesExact, ClassesOrdered, BlackClosed, StackChained, StackLeadsToGray, Lists, LowWitness, LowBounds,
        Scanned, Less, Reach, Edge, Closed, StackOrdered, Partitioned, Scanning, Sorted, Distinct;
      ghost var s := State();
      var next := edges[node][k];
      ListedEdge(edges, node, k);
      if next !in indexOf {
        var low := lowlink[node];
        ghost var next1 := nextIndex;
        ReachesOn(edges, gray, node, next);
        GrayIndexed(edges, s, gray);
        StrongConnect(next);
        ScanRecursed(edges, s0, next0, s, node, k, low, next1, State(), lowlink[next]);
        lowlink := lowlink[node := if lowlink[next] < lowlink[node] then lowlink[next] else lowlink[node]];
      } else {
        ScanVisited(edges, s0, next0, s, node, k, lowlink[node],
          if next in stack && indexOf[next] < lowlink[node] then indexOf[next] else lowlink[node]);
        if next in onStack {
          lowlink := lowlink[node := if indexOf[next] < lowlink[node] then indexOf[next] else lowlink[node]];
        }
      }
    }
  }

  /** The strongly connected components of the graph. */
  method TarjanScc(nodes: seq<Id>, edges: Graph<Id>) returns (components: seq<seq<Id>>)
    requires Closed(edges) && edges.Keys == Elements(nodes)
    ensures SccsInOrder(edges, components)
  {
    hide Lists, LowWitness, LowBounds, Reach, Closed, StackOrdered, ClassesExact, ClassesOrdered, StackChained,
      StackLeadsToGray, BlackClosed;
    var finder := new SccFinder(edges);
    for k := 0 to |nodes|
      invariant finder.Valid() && finder.edges == edges && finder.gray == {}
      invariant forall j :: 0 <= j < k ==> nodes[j] in finder.indexOf
    {
      if nodes[k] !in finder.indexOf {
        finder.StrongConnect(nodes[k]);
      }
    }
    NothingLeft(edges, finder.State());
    ListsInOrder(edges, finder.classOf, finder.components);
    components := finder.components;
  }
}
