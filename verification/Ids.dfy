/** Component, region, edge and endpoint names are byte strings. Ordered containers of the runtime
    iterate over them in lexicographic order, so that order is defined here once. */
module Ids {

  type Id = string

  /** The order of an ordered map or set of strings. */
  predicate Less(a: Id, b: Id) {
    if b == "" then false
    else if a == "" then true
    else a[0] < b[0] || (a[0] == b[0] && Less(a[1..], b[1..]))
  }

  predicate Sorted(s: seq<Id>) {
    forall i, j :: 0 <= i < j < |s| ==> !Less(s[j], s[i])
  }

  ghost predicate Distinct<T>(s: seq<T>) {
    forall i, j :: 0 <= i < j < |s| ==> s[i] != s[j]
  }

  function Elements<T>(s: seq<T>): set<T> {
    set x | x in s
  }

  lemma {:induction false} LessTrichotomy(a: Id, b: Id)
    ensures Less(a, b) || Less(b, a) || a == b
    ensures !(Less(a, b) && Less(b, a))
    ensures !Less(a, a)
  {
    if a != "" {
      LessTrichotomy(a[1..], a[1..]);
    }
    if a != "" && b != "" {
      LessTrichotomy(a[1..], b[1..]);
      if a[0] == b[0] && a[1..] == b[1..] {
        assert a == [a[0]] + a[1..] == b;
      }
    }
  }

  lemma {:induction false} LessTransitive(a: Id, b: Id, c: Id)
    requires Less(a, b) && Less(b, c)
    ensures Less(a, c)
  {
    if a != "" && a[0] == b[0] == c[0] {
      LessTransitive(a[1..], b[1..], c[1..]);
    }
  }

  /** One name comes before another exactly when it is a proper beginning of it, or smaller at the first difference. */
  lemma {:induction false} LessIff(a: Id, b: Id)
    ensures Less(a, b) <==> a < b || SmallerAtFirst(a, b)
  {
    if a != "" && b != "" {
      if a[0] == b[0] {
        LessIff(a[1..], b[1..]);
        TailsSmaller(a, b);
      } else {
        assert SmallerAt(a, b, 0) <==> a[0] < b[0];
      }
    }
  }

  ghost predicate SmallerAt(a: Id, b: Id, k: nat) {
    k < |a| && k < |b| && a[..k] == b[..k] && a[k] < b[k]
  }

  ghost predicate SmallerAtFirst(a: Id, b: Id) {
    exists k: nat :: SmallerAt(a, b, k)
  }

  lemma TailsSmaller(a: Id, b: Id)
    requires a != "" && b != "" && a[0] == b[0]
    ensures SmallerAtFirst(a, b) <==> SmallerAtFirst(a[1..], b[1..])
    ensures a < b <==> a[1..] < b[1..]
  {
    var a', b' := a[1..], b[1..];
    assert a == [a[0]] + a' && b == [b[0]] + b';
    if k: nat :| SmallerAt(a', b', k) {
      assert a[..k + 1] == [a[0]] + a'[..k] && b[..k + 1] == [b[0]] + b'[..k];
      assert SmallerAt(a, b, k + 1);
    }
    if k: nat :| SmallerAt(a, b, k) {
      assert a'[..k - 1] == a[..k][1..] && b'[..k - 1] == b[..k][1..];
      assert SmallerAt(a', b', k - 1);
    }
  }

  /** Inserts x before the first larger name. */
  function Insert(x: Id, s: seq<Id>): seq<Id> {
    if s == [] || Less(x, s[0]) then [x] + s else [s[0]] + Insert(x, s[1..])
  }

  /** Sorting of a vector of names. */
  function SortIds(s: seq<Id>): seq<Id> {
    if s == [] then [] else Insert(s[0], SortIds(s[1..]))
  }

  lemma {:induction false} InsertContents(x: Id, s: seq<Id>)
    ensures multiset(Insert(x, s)) == multiset(s) + multiset{x}
    ensures forall y :: y in Insert(x, s) <==> y == x || y in s
  {
    if s != [] && !Less(x, s[0]) {
      InsertContents(x, s[1..]);
      assert s == [s[0]] + s[1..];
    }
  }

  lemma {:induction false} InsertSorted(x: Id, s: seq<Id>)
    requires Sorted(s)
    ensures Sorted(Insert(x, s))
  {
    if s == [] {
    } else if Less(x, s[0]) {
      var r := Insert(x, s);
      forall i, j | 0 <= i < j < |r|
        ensures !Less(r[j], r[i])
      {
        if i == 0 {
          LessTrichotomy(x, s[j - 1]);
          LessTrichotomy(s[j - 1], s[0]);
          if j > 1 && s[j - 1] != s[0] {
            assert !Less(s[j - 1], s[0]);
            LessTransitive(x, s[0], s[j - 1]);
          }
        }
      }
    } else {
      assert Sorted(s[1..]);
      InsertSorted(x, s[1..]);
      InsertContents(x, s[1..]);
      var t := Insert(x, s[1..]);
      forall j | 0 <= j < |t|
        ensures !Less(t[j], s[0])
      {
        assert t[j] in t;
        if t[j] != x {
          var k :| 0 <= k < |s[1..]| && s[1..][k] == t[j];
        }
      }
    }
  }

  lemma {:induction false} SortIdsSorts(s: seq<Id>)
    ensures Sorted(SortIds(s))
    ensures multiset(SortIds(s)) == multiset(s)
    ensures forall y :: y in SortIds(s) <==> y in s
    ensures |SortIds(s)| == |s|
  {
    if s != [] {
      SortIdsSorts(s[1..]);
      InsertSorted(s[0], SortIds(s[1..]));
      InsertContents(s[0], SortIds(s[1..]));
      assert s == [s[0]] + s[1..];
    }
    assert |multiset(SortIds(s))| == |multiset(s)|;
  }

  lemma SortedHead(s: seq<Id>, t: seq<Id>)
    requires Sorted(s) && Sorted(t) && multiset(s) == multiset(t) && s != [] && t != []
    ensures s[0] == t[0]
  {
    assert t[0] in multiset(s) && s[0] in multiset(t);
    LessTrichotomy(s[0], t[0]);
    var i :| 0 <= i < |s| && s[i] == t[0];
    var j :| 0 <= j < |t| && t[j] == s[0];
  }

  lemma SortedTail(s: seq<Id>)
    requires Sorted(s) && s != []
    ensures Sorted(s[1..]) && multiset(s[1..]) == multiset(s) - multiset{s[0]}
  {
    assert s == [s[0]] + s[1..];
  }

  lemma {:induction false} SortedUnique(s: seq<Id>, t: seq<Id>)
    requires Sorted(s) && Sorted(t) && multiset(s) == multiset(t)
    ensures s == t
  {
    hide Less;
    assert |s| == |multiset(s)| == |t|;
    if s != [] {
      SortedHead(s, t);
      SortedTail(s);
      SortedTail(t);
      hide Sorted;
      SortedUnique(s[1..], t[1..]);
      assert s == [s[0]] + s[1..] && t == [t[0]] + t[1..];
    }
  }

  /** A distinct sequence and its set of elements have the same size, and equal multisets mean equal sets. */
  lemma {:induction false} DistinctSize<T>(s: seq<T>)
    requires Distinct(s)
    ensures |Elements(s)| == |s|
  {
    if s != [] {
      DistinctSize(s[1..]);
      assert Elements(s) == {s[0]} + Elements(s[1..]);
    }
  }

  lemma {:induction false} DistinctMultiset<T>(s: seq<T>)
    requires Distinct(s)
    ensures multiset(s) == multiset(Elements(s))
  {
    if s != [] {
      DistinctMultiset(s[1..]);
      assert s == [s[0]] + s[1..];
      assert Elements(s) == {s[0]} + Elements(s[1..]);
    }
  }

  lemma RepeatedTwice<T>(t: seq<T>, i: nat, j: nat)
    requires i < j < |t| && t[i] == t[j]
    ensures multiset(t)[t[i]] >= 2
  {
    assert t == t[..j] + t[j..];
    assert t[i] in t[..j] && t[j] in t[j..];
  }

  lemma MultisetDistinct<T>(s: seq<T>, t: seq<T>)
    requires multiset(s) == multiset(t) && Distinct(s)
    ensures Distinct(t) && Elements(s) == Elements(t)
  {
    DistinctMultiset(s);
    forall x ensures x in s <==> x in t {
      assert x in multiset(s) <==> x in multiset(t);
    }
    forall i, j | 0 <= i < j < |t| ensures t[i] != t[j] {
      if t[i] == t[j] {
        RepeatedTwice(t, i, j);
        assert false;
      }
    }
  }

  lemma SameElementsSameMultiset<T>(s: seq<T>, t: seq<T>)
    requires Distinct(s) && Distinct(t) && Elements(s) == Elements(t)
    ensures multiset(s) == multiset(t)
  {
    DistinctMultiset(s);
    DistinctMultiset(t);
  }

  /** The first key of an ordered container. */
  predicate IsSmallest(keys: set<Id>, k: Id) {
    k in keys && forall r :: r in keys && r != k ==> Less(k, r)
  }

  lemma {:induction false} SmallestExists(keys: set<Id>)
    requires keys != {}
    ensures exists k :: IsSmallest(keys, k)
  {
    hide Less;
    var x :| x in keys;
    if keys == {x} {
      assert IsSmallest(keys, x);
    } else {
      SmallestExists(keys - {x});
      var k :| IsSmallest(keys - {x}, k);
      LessTrichotomy(k, x);
      forall r | r in keys - {x} && Less(x, k) ensures Less(x, r) {
        if r != k { LessTransitive(x, k, r); }
      }
      assert IsSmallest(keys, if Less(k, x) then k else x);
    }
  }

  lemma SmallestUnique(keys: set<Id>, a: Id, b: Id)
    requires IsSmallest(keys, a) && IsSmallest(keys, b)
    ensures a == b
  {
    LessTrichotomy(a, b);
  }

  ghost predicate InOrder(ids: seq<Id>) {
    forall i, j :: 0 <= i < j < |ids| ==> Less(ids[i], ids[j])
  }

  /** The keys of an ordered container, in the order it is iterated. */
  method OrderedKeys(keys: set<Id>) returns (ids: seq<Id>)
    ensures Distinct(ids) && Elements(ids) == keys
    ensures InOrder(ids)
  {
    hide Less;
    ids := [];
    var todo := keys;
    while todo != {}
      invariant todo !! Elements(ids) && todo + Elements(ids) == keys && Distinct(ids)
      invariant InOrder(ids)
      invariant forall i, r :: 0 <= i < |ids| && r in todo ==> Less(ids[i], r)
    {
      SmallestExists(todo);
      var k :| k in todo && IsSmallest(todo, k);
      ids := ids + [k];
      todo := todo - {k};
    }
  }
}
