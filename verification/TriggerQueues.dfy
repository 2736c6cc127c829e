/** Pending messages by input port, and the ledger that follows every message removed from them. */
module TriggerQueues {
  import opened Ids
  import opened Messages

  type Queues = map<Id, seq<Message>>

  type Log = seq<(Id, Message)>

  /** The logged messages of one port. */
  function OnPort(log: Log, port: Id): seq<Message> {
    if log == [] then []
    else
      var front := OnPort(log[..|log| - 1], port);
      if log[|log| - 1].0 == port then front + [log[|log| - 1].1] else front
  }

  lemma {:induction false} OnPortConcat(a: Log, b: Log, port: Id)
    ensures OnPort(a + b, port) == OnPort(a, port) + OnPort(b, port)
  {
    if b == [] {
      assert a + b == a;
    } else {
      assert (a + b)[..|a + b| - 1] == a + b[..|b| - 1];
      OnPortConcat(a, b[..|b| - 1], port);
    }
  }

  /** Nothing is lost and nothing is made up: on every port, what was pending is what is pending now and
      what the log says was removed. */
  ghost predicate Balanced(before: Queues, after: Queues, log: Log) {
    && before.Keys == after.Keys
    && (forall p :: p in before ==> multiset(before[p]) == multiset(after[p]) + multiset(OnPort(log, p)))
    && (forall e :: e in log ==> e.0 in before)
  }

  lemma BalancedNothing(q: Queues)
    ensures Balanced(q, q, [])
  {
  }

  lemma BalancedChain(a: Queues, b: Queues, c: Queues, first: Log, second: Log)
    requires Balanced(a, b, first) && Balanced(b, c, second)
    ensures Balanced(a, c, first + second)
  {
    forall p | p in a ensures multiset(a[p]) == multiset(c[p]) + multiset(OnPort(first + second, p)) {
      OnPortConcat(first, second, p);
    }
  }

  /** Moving part of one queue into the log. */
  function Tagged(port: Id, s: seq<Message>): Log {
    seq(|s|, i requires 0 <= i < |s| => (port, s[i]))
  }

  lemma {:induction false} OnPortTagged(port: Id, s: seq<Message>, p: Id)
    ensures OnPort(Tagged(port, s), p) == if p == port then s else []
  {
    if s != [] {
      OnPortTagged(port, s[..|s| - 1], p);
      assert Tagged(port, s)[..|s| - 1] == Tagged(port, s[..|s| - 1]);
    }
  }

  lemma BalancedOnPort(q: Queues, port: Id, kept: seq<Message>, removed: seq<Message>)
    requires port in q && multiset(q[port]) == multiset(kept) + multiset(removed)
    ensures Balanced(q, q[port := kept], Tagged(port, removed))
  {
    forall p | p in q
      ensures multiset(q[p]) == multiset(q[port := kept][p]) + multiset(OnPort(Tagged(port, removed), p))
    {
      OnPortTagged(port, removed, p);
    }
  }

  /** The log took messages off the fronts of the queues, in order. */
  ghost predicate Fifo(before: Queues, after: Queues, log: Log) {
    && before.Keys == after.Keys
    && (forall p :: p in before ==> before[p] == OnPort(log, p) + after[p])
    && (forall e :: e in log ==> e.0 in before)
  }

  lemma FifoNothing(q: Queues)
    ensures Fifo(q, q, [])
  {
  }

  lemma FifoChain(a: Queues, b: Queues, c: Queues, first: Log, second: Log)
    requires Fifo(a, b, first) && Fifo(b, c, second)
    ensures Fifo(a, c, first + second)
  {
    hide OnPort;
    forall p | p in a ensures a[p] == OnPort(first + second, p) + c[p] {
      OnPortConcat(first, second, p);
    }
  }

  lemma FifoIsBalanced(before: Queues, after: Queues, log: Log)
    requires Fifo(before, after, log)
    ensures Balanced(before, after, log)
  {
    hide OnPort;
  }

  lemma FifoOnPort(q: Queues, port: Id, n: nat)
    requires port in q && n <= |q[port]|
    ensures Fifo(q, q[port := q[port][n..]], Tagged(port, q[port][..n]))
  {
    hide OnPort;
    forall p | p in q ensures q[p] == OnPort(Tagged(port, q[port][..n]), p) + q[port := q[port][n..]][p] {
      OnPortTagged(port, q[port][..n], p);
    }
  }

  lemma FifoHead(q: Queues, port: Id)
    requires port in q && q[port] != []
    ensures Fifo(q, q[port := q[port][1..]], [(port, q[port][0])])
  {
    FifoOnPort(q, port, 1);
    assert Tagged(port, q[port][..1]) == [(port, q[port][0])];
  }

  // ----- one front message per input

  predicate AllFilled(inputs: seq<Id>, q: Queues)
    requires forall p :: p in inputs ==> p in q
  {
    forall p :: p in inputs ==> q[p] != []
  }

  function Fronts(inputs: seq<Id>, q: Queues): Log
    requires (forall p :: p in inputs ==> p in q) && AllFilled(inputs, q)
  {
    seq(|inputs|, i requires 0 <= i < |inputs| => (inputs[i], q[inputs[i]][0]))
  }

  function Consumed(inputs: seq<Id>, q: Queues): Queues
    requires (forall p :: p in inputs ==> p in q) && AllFilled(inputs, q)
  {
    map p | p in q :: if p in inputs then q[p][1..] else q[p]
  }

  lemma {:induction false} OnPortFronts(inputs: seq<Id>, q: Queues, p: Id)
    requires Distinct(inputs) && (forall i :: i in inputs ==> i in q) && AllFilled(inputs, q)
    ensures OnPort(Fronts(inputs, q), p) == if p in inputs then [q[p][0]] else []
  {
    if inputs != [] {
      var front, last := inputs[..|inputs| - 1], inputs[|inputs| - 1];
      assert inputs == front + [last] && last !in front;
      OnPortFronts(front, q, p);
      assert Fronts(inputs, q)[..|inputs| - 1] == Fronts(front, q);
    }
  }

  lemma FifoFronts(inputs: seq<Id>, q: Queues)
    requires Distinct(inputs) && (forall p :: p in inputs ==> p in q) && AllFilled(inputs, q)
    ensures Fifo(q, Consumed(inputs, q), Fronts(inputs, q))
  {
    hide OnPort;
    forall p | p in q ensures q[p] == OnPort(Fronts(inputs, q), p) + Consumed(inputs, q)[p] {
      OnPortFronts(inputs, q, p);
    }
  }

  /** All invocations' messages in emission order. */
  function Flatten(invocations: seq<Log>): Log {
    if invocations == [] then [] else Flatten(invocations[..|invocations| - 1]) + invocations[|invocations| - 1]
  }

  lemma {:induction false} FlattenConcat(a: seq<Log>, b: seq<Log>)
    ensures Flatten(a + b) == Flatten(a) + Flatten(b)
  {
    if b == [] {
      assert a + b == a && Flatten(a) + [] == Flatten(a);
    } else {
      assert (a + b)[..|a + b| - 1] == a + b[..|b| - 1];
      FlattenConcat(a, b[..|b| - 1]);
    }
  }

  lemma FlattenPush(invocations: seq<Log>, last: Log)
    ensures Flatten(invocations + [last]) == Flatten(invocations) + last
  {
    assert (invocations + [last])[..|invocations|] == invocations;
  }

  /** How many messages the inputs hold back together. */
  function Size(inputs: seq<Id>, q: Queues): nat {
    if inputs == [] then 0
    else
      var last := inputs[|inputs| - 1];
      Size(inputs[..|inputs| - 1], q) + if last in q then |q[last]| else 0
  }

  lemma {:induction false} SizeDrop(inputs: seq<Id>, q: Queues, port: Id, s: seq<Message>)
    requires Distinct(inputs) && port in q && |s| < |q[port]|
    ensures Size(inputs, q[port := s]) <= Size(inputs, q)
    ensures port in inputs ==> Size(inputs, q[port := s]) < Size(inputs, q)
  {
    if inputs != [] {
      SizeDrop(inputs[..|inputs| - 1], q, port, s);
      assert inputs == inputs[..|inputs| - 1] + [inputs[|inputs| - 1]];
    }
  }
}
