/** What a time-synchronised trigger has to find: one message per input with timestamps close together. */
module TimeSync {
  import opened Ids
  import opened Messages
  import opened TriggerQueues

  ghost predicate Stamped(s: seq<Message>, domain: Domain) {
    forall k :: 0 <= k < |s| ==> s[k].stamp.Some? && s[k].stamp.value.domain == domain
  }

  /** The timestamp of a message, 0 without one. */
  function Ns(m: Message): int {
    if m.stamp.Some? then m.stamp.value.ns else 0
  }

  ghost predicate StampSorted(s: seq<Message>) {
    forall i, j :: 0 <= i <= j < |s| ==> Ns(s[i]) <= Ns(s[j])
  }

  /** The queues of all inputs carry timestamps of one domain, oldest first. */
  ghost predicate Orderly(inputs: seq<Id>, q: Queues, domain: Domain) {
    forall p :: p in inputs ==> p in q && Stamped(q[p], domain) && StampSorted(q[p])
  }

  /** later holds the same messages with possibly more behind them. */
  ghost predicate Grown(inputs: seq<Id>, q: Queues, later: Queues) {
    forall p :: p in inputs ==> p in q && p in later && q[p] <= later[p]
  }

  /** A choice of one position per input. */
  type Choice = map<Id, nat>

  ghost predicate Available(inputs: seq<Id>, q: Queues, t: Choice) {
    forall p :: p in inputs ==> p in q && p in t && t[p] < |q[p]|
  }

  ghost predicate Close(inputs: seq<Id>, q: Queues, t: Choice, slop: int)
    requires Available(inputs, q, t)
  {
    forall a, b :: a in inputs && b in inputs ==> Ns(q[a][t[a]]) - Ns(q[b][t[b]]) <= slop
  }

  ghost predicate Matching(inputs: seq<Id>, q: Queues, t: Choice, slop: int) {
    Available(inputs, q, t) && Close(inputs, q, t, slop)
  }

  ghost predicate AtLeast(inputs: seq<Id>, t: Choice, d: Choice) {
    forall p :: p in inputs && p in t && p in d ==> d[p] <= t[p]
  }

  /** No match, now or after any further orderly arrivals, uses a message before position d of its queue. */
  ghost predicate Skippable(inputs: seq<Id>, q: Queues, domain: Domain, slop: int, d: Choice) {
    forall later, t :: Grown(inputs, q, later) && Orderly(inputs, later, domain) && Matching(inputs, later, t, slop) ==>
      AtLeast(inputs, t, d)
  }

  /** The queues after the first d messages of each input were dropped. */
  ghost predicate Dropped(inputs: seq<Id>, q: Queues, d: Choice, rest: Queues) {
    && q.Keys == rest.Keys
    && forall p :: p in inputs ==> p in q && p in d && d[p] <= |q[p]| && rest[p] == q[p][d[p]..]
  }

  /** When the fronts are too far apart, the oldest front cannot be part of any match. */
  lemma OldestFrontSkippable(inputs: seq<Id>, q: Queues, domain: Domain, slop: int, d: Choice, rest: Queues, low: Id, high: Id)
    requires Skippable(inputs, q, domain, slop, d) && Dropped(inputs, q, d, rest)
    requires low in inputs && high in inputs && rest[low] != [] && rest[high] != []
    requires Ns(rest[high][0]) - Ns(rest[low][0]) > slop
    ensures Skippable(inputs, q, domain, slop, d[low := d[low] + 1])
  {
    var d' := d[low := d[low] + 1];
    forall later, t | Grown(inputs, q, later) && Orderly(inputs, later, domain) && Matching(inputs, later, t, slop)
      ensures AtLeast(inputs, t, d')
    {
      assert AtLeast(inputs, t, d);
      assert later[high][d[high]] == q[high][d[high]] == rest[high][0];
      assert later[low][d[low]] == q[low][d[low]] == rest[low][0];
      assert Ns(later[high][d[high]]) <= Ns(later[high][t[high]]);
      assert Ns(later[high][t[high]]) - Ns(later[low][t[low]]) <= slop;
    }
  }

  lemma DropOneMore(inputs: seq<Id>, q: Queues, d: Choice, rest: Queues, low: Id)
    requires Dropped(inputs, q, d, rest) && low in inputs && rest[low] != []
    ensures Dropped(inputs, q, d[low := d[low] + 1], rest[low := rest[low][1..]])
  {
  }

  lemma NothingDropped(inputs: seq<Id>, q: Queues, domain: Domain, slop: int, d: Choice)
    requires forall p :: p in inputs ==> p in q && p in d && d[p] == 0
    ensures Dropped(inputs, q, d, q) && Skippable(inputs, q, domain, slop, d)
  {
  }

  /** If one input has run out, nothing that was pending can match. */
  lemma ExhaustedHasNoMatch(inputs: seq<Id>, q: Queues, domain: Domain, slop: int, d: Choice, rest: Queues, empty: Id)
    requires Skippable(inputs, q, domain, slop, d) && Dropped(inputs, q, d, rest) && Orderly(inputs, q, domain)
    requires empty in inputs && rest[empty] == []
    ensures forall t :: !Matching(inputs, q, t, slop)
  {
    assert Grown(inputs, q, q);
    forall t ensures !Matching(inputs, q, t, slop) {
      assert Matching(inputs, q, t, slop) ==> AtLeast(inputs, t, d);
    }
  }

  /** Fronts within the slop are a match, at the positions dropped so far. */
  lemma CloseFrontsMatch(inputs: seq<Id>, q: Queues, slop: int, d: Choice, rest: Queues)
    requires Dropped(inputs, q, d, rest) && AllFilled(inputs, rest)
    requires forall a, b :: a in inputs && b in inputs ==> Ns(rest[a][0]) - Ns(rest[b][0]) <= slop
    ensures Matching(inputs, q, d, slop)
  {
    forall a, b | a in inputs && b in inputs ensures Ns(q[a][d[a]]) - Ns(q[b][d[b]]) <= slop {
      assert rest[a][0] == q[a][d[a]] && rest[b][0] == q[b][d[b]];
    }
  }

  // ----- the whole run, whatever the timestamps are

  /** The front messages all carry a timestamp, in one domain. */
  ghost predicate OneDomain(inputs: seq<Id>, q: Queues)
    requires (forall p :: p in inputs ==> p in q) && AllFilled(inputs, q)
  {
    inputs != [] && forall a, b :: a in inputs && b in inputs ==>
      q[a][0].stamp.Some? && q[b][0].stamp.Some? && q[a][0].stamp.value.domain == q[b][0].stamp.value.domain
  }

  ghost predicate FrontsClose(inputs: seq<Id>, q: Queues, slop: int)
    requires (forall p :: p in inputs ==> p in q) && AllFilled(inputs, q)
  {
    forall a, b :: a in inputs && b in inputs ==> Ns(q[a][0]) - Ns(q[b][0]) <= slop
  }

  /** The first of the inputs with an oldest front. */
  ghost predicate IsOldest(inputs: seq<Id>, q: Queues, port: Id)
    requires (forall p :: p in inputs ==> p in q) && AllFilled(inputs, q)
  {
    exists i :: 0 <= i < |inputs| && inputs[i] == port &&
      forall j :: 0 <= j < |inputs| ==> Ns(q[port][0]) <= Ns(q[inputs[j]][0]) && (j < i ==> Ns(q[port][0]) < Ns(q[inputs[j]][0]))
  }

  /** The fronts are all there and stamped in one domain, but lie more than the slop apart: the oldest one goes. */
  ghost predicate DropStep(inputs: seq<Id>, q: Queues, e: (Id, Message), slop: int)
    requires forall p :: p in inputs ==> p in q
  {
    && slop > 0 && AllFilled(inputs, q) && OneDomain(inputs, q) && !FrontsClose(inputs, q, slop)
    && e.0 in inputs && IsOldest(inputs, q, e.0) && e.1 == q[e.0][0]
  }

  /** Nothing more is dropped: an input has run out, or the fronts go together, because they are close enough, or
      because there is no slop, or because their timestamps cannot be compared. */
  ghost predicate SyncStops(inputs: seq<Id>, q: Queues, after: Queues, out: seq<Log>, slop: int)
    requires forall p :: p in inputs ==> p in q
  {
    if AllFilled(inputs, q) then
      && (slop <= 0 || !OneDomain(inputs, q) || FrontsClose(inputs, q, slop))
      && out == [Fronts(inputs, q)] && after == Consumed(inputs, q)
    else out == [] && after == q
  }

  /** Message by message, what is dropped until nothing more is. */
  ghost predicate SyncRun(inputs: seq<Id>, q: Queues, after: Queues, log: Log, out: seq<Log>, slop: int)
    requires forall p :: p in inputs ==> p in q
    decreases |log|
  {
    if log == [] then SyncStops(inputs, q, after, out, slop)
    else DropStep(inputs, q, log[0], slop) && SyncRun(inputs, q[log[0].0 := q[log[0].0][1..]], after, log[1..], out, slop)
  }

  /** From here on, a run continues what was dropped so far. */
  ghost predicate Continues(inputs: seq<Id>, q: Queues, rest: Queues, log: Log, slop: int)
    requires forall p :: p in inputs ==> p in q && p in rest
  {
    forall after, more, out {:trigger SyncRun(inputs, rest, after, more, out, slop)} ::
      SyncRun(inputs, rest, after, more, out, slop) ==> SyncRun(inputs, q, after, log + more, out, slop)
  }

  lemma ContinuesFirst(inputs: seq<Id>, q: Queues, slop: int)
    requires forall p :: p in inputs ==> p in q
    ensures Continues(inputs, q, q, [], slop)
  {
    hide SyncRun;
    forall after, more: Log, out | SyncRun(inputs, q, after, more, out, slop) ensures SyncRun(inputs, q, after, [] + more, out, slop) {
      assert [] + more == more;
    }
  }

  lemma ContinuesOn(inputs: seq<Id>, q: Queues, rest: Queues, log: Log, e: (Id, Message), slop: int)
    requires (forall p :: p in inputs ==> p in q && p in rest) && Continues(inputs, q, rest, log, slop) && DropStep(inputs, rest, e, slop)
    ensures Continues(inputs, q, rest[e.0 := rest[e.0][1..]], log + [e], slop)
  {
    hide SyncStops, OneDomain, FrontsClose, IsOldest;
    var next := rest[e.0 := rest[e.0][1..]];
    forall after, more, out | SyncRun(inputs, next, after, more, out, slop) ensures SyncRun(inputs, q, after, log + [e] + more, out, slop) {
      assert ([e] + more)[1..] == more;
      assert SyncRun(inputs, rest, after, [e] + more, out, slop);
      assert log + ([e] + more) == log + [e] + more;
    }
  }

  lemma RunStops(inputs: seq<Id>, q: Queues, rest: Queues, after: Queues, log: Log, out: seq<Log>, slop: int)
    requires (forall p :: p in inputs ==> p in q && p in rest) && Continues(inputs, q, rest, log, slop)
    requires SyncStops(inputs, rest, after, out, slop)
    ensures SyncRun(inputs, q, after, log, out, slop)
  {
    hide SyncStops;
    assert SyncRun(inputs, rest, after, [], out, slop);
    assert log + [] == log;
  }

  /** What is dropped and emitted is determined by what is pending, for any timestamps. */
  lemma {:induction false} SyncRunUnique(inputs: seq<Id>, q: Queues, after: Queues, log: Log, out: seq<Log>, after': Queues, log': Log,
                                         out': seq<Log>, slop: int)
    requires forall p :: p in inputs ==> p in q
    requires SyncRun(inputs, q, after, log, out, slop) && SyncRun(inputs, q, after', log', out', slop)
    ensures after == after' && log == log' && out == out'
    decreases |log|
  {
    hide OneDomain, FrontsClose;
    if log != [] && log' != [] {
      OldestUnique(inputs, q, log[0].0, log'[0].0);
      SyncRunUnique(inputs, q[log[0].0 := q[log[0].0][1..]], after, log[1..], out, after', log'[1..], out', slop);
      assert log == [log[0]] + log[1..] && log' == [log'[0]] + log'[1..];
    }
  }

  lemma OldestUnique(inputs: seq<Id>, q: Queues, a: Id, b: Id)
    requires (forall p :: p in inputs ==> p in q) && AllFilled(inputs, q) && IsOldest(inputs, q, a) && IsOldest(inputs, q, b)
    ensures a == b
  {
  }

  /** Fronts that cannot be compared, because one has no timestamp or two are of different domains, go together at
      once, and nothing is dropped. */
  lemma IncomparableGo(inputs: seq<Id>, q: Queues, after: Queues, log: Log, out: seq<Log>, slop: int, a: Id, b: Id)
    requires (forall p :: p in inputs ==> p in q) && SyncRun(inputs, q, after, log, out, slop) && AllFilled(inputs, q)
    requires a in inputs && b in inputs
    requires q[a][0].stamp.None? || (q[b][0].stamp.Some? && q[a][0].stamp.value.domain != q[b][0].stamp.value.domain)
    ensures log == [] && out == [Fronts(inputs, q)]
  {
  }
}
