/** The trigger policy engine: when the pending input messages of a component become invocations. One engine
    here holds the entries of one component; the entries of different components never meet. */
module TriggerEngine {
  import opened Ids
  import opened Messages
  import opened TriggerQueues
  import opened TimeSync

  datatype PolicySpec = PolicySpec(kind: string, batchSize: nat, batchWindowMs: nat, syncSlopMs: nat, minIntervalMs: nat,
                                   maxLatencyMs: nat, watermarkLatenessMs: nat, condition: string, coalesce: bool)

  /** What a component runs on: a timer tick, a manual run, or one group of messages tagged with their ports. */
  datatype Invocation = OnTick | Manual | OnMessages(messages: Log)

  datatype Stats = Stats(timeoutDrops: nat, pendingDrops: nat, timeSyncDrops: nat, lateDrops: nat, batchFlushes: nat,
                         conditionSuppressed: nat, rateLimited: nat)

  const NO_STATS := Stats(0, 0, 0, 0, 0, 0, 0)

  function Drops(s: Stats): nat {
    s.timeoutDrops + s.pendingDrops + s.timeSyncDrops + s.lateDrops
  }

  // ----- single queues

  predicate TimedOut(m: Message, now: int, limitMs: int) {
    now - m.receivedAt > limitMs * MILLISECOND
  }

  /** The messages that have not timed out, in order, and those that have. */
  function Split(s: seq<Message>, now: int, limitMs: int): (r: (seq<Message>, seq<Message>)) {
    if s == [] then ([], [])
    else
      var (kept, gone) := Split(s[..|s| - 1], now, limitMs);
      var m := s[|s| - 1];
      if TimedOut(m, now, limitMs) then (kept, gone + [m]) else (kept + [m], gone)
  }

  lemma {:induction false} SplitBalanced(s: seq<Message>, now: int, limitMs: int)
    ensures var (kept, gone) := Split(s, now, limitMs);
      && multiset(s) == multiset(kept) + multiset(gone)
      && (forall m :: m in kept ==> !TimedOut(m, now, limitMs)) && (forall m :: m in gone ==> TimedOut(m, now, limitMs))
  {
    hide TimedOut;
    if s != [] {
      SplitBalanced(s[..|s| - 1], now, limitMs);
      assert s == s[..|s| - 1] + [s[|s| - 1]];
    }
  }

  ghost predicate AllTimedOut(log: Log, now: int, limitMs: int) {
    forall e :: e in log ==> TimedOut(e.1, now, limitMs)
  }

  lemma NoneTimedOut(now: int, limitMs: int)
    ensures AllTimedOut([], now, limitMs)
  {
  }

  lemma AllTimedOutConcat(a: Log, b: Log, now: int, limitMs: int)
    requires AllTimedOut(a, now, limitMs) && AllTimedOut(b, now, limitMs)
    ensures AllTimedOut(a + b, now, limitMs)
  {
  }

  /** The queues after the ports in `done` were pruned. */
  ghost function Pruned(q: Queues, done: set<Id>, now: int, limitMs: int): Queues {
    map p | p in q :: if p in done then Split(q[p], now, limitMs).0 else q[p]
  }

  lemma PrunedNone(q: Queues, ports: seq<Id>, now: int, limitMs: int)
    ensures Pruned(q, Elements(ports[..0]), now, limitMs) == q
  {
  }

  lemma PrunedAll(q: Queues, inputs: seq<Id>, ports: seq<Id>, now: int, limitMs: int)
    requires forall p :: p in inputs ==> p in q && p in ports
    ensures forall p :: p in inputs ==> Pruned(q, Elements(ports), now, limitMs)[p] == Split(q[p], now, limitMs).0
  {
    hide Split;
  }

  lemma PrunedNext(q: Queues, ports: seq<Id>, k: nat, now: int, limitMs: int)
    requires k < |ports| && Distinct(ports) && ports[k] in q
    ensures var done, port := Elements(ports[..k]), ports[k];
      && Pruned(q, done, now, limitMs)[port] == q[port]
      && Pruned(q, Elements(ports[..k + 1]), now, limitMs) ==
         Pruned(q, done, now, limitMs)[port := Split(q[port], now, limitMs).0]
  {
    hide Split;
    assert ports[..k + 1] == ports[..k] + [ports[k]] && ports[k] !in ports[..k];
  }

  /** Removes the messages that waited longer than the limit; the rest keep their order. */
  method PruneQueue(queue: seq<Message>, now: int, limitMs: int) returns (retained: seq<Message>, drops: nat)
    ensures retained == Split(queue, now, limitMs).0 && drops == |Split(queue, now, limitMs).1|
  {
    retained, drops := [], 0;
    for k := 0 to |queue|
      invariant retained == Split(queue[..k], now, limitMs).0 && drops == |Split(queue[..k], now, limitMs).1|
    {
      assert queue[..k + 1][..k] == queue[..k];
      if TimedOut(queue[k], now, limitMs) {
        drops := drops + 1;
      } else {
        retained := retained + [queue[k]];
      }
    }
    assert queue[..|queue|] == queue;
  }

  // ----- watermarks

  type Watermarks = map<Domain, int>

  predicate Late(m: Message, marks: Watermarks, latenessNs: nat) {
    m.stamp.Some? && m.stamp.value.domain in marks && m.stamp.value.ns < marks[m.stamp.value.domain] - latenessNs
  }

  function Advanced(m: Message, marks: Watermarks): Watermarks {
    if m.stamp.Some? && (m.stamp.value.domain in marks ==> m.stamp.value.ns > marks[m.stamp.value.domain])
    then marks[m.stamp.value.domain := m.stamp.value.ns] else marks
  }

  datatype Scan = Scan(kept: seq<Message>, late: seq<Message>, marks: Watermarks)

  /** Reads a queue front to back against watermarks that move with every message kept. */
  function Scanned(s: seq<Message>, start: Watermarks, latenessNs: nat): Scan {
    if s == [] then Scan([], [], start)
    else
      var r := Scanned(s[..|s| - 1], start, latenessNs);
      var m := s[|s| - 1];
      if Late(m, r.marks, latenessNs) then r.(late := r.late + [m])
      else r.(kept := r.kept + [m], marks := Advanced(m, r.marks))
  }

  ghost predicate Covers(marks: Watermarks, m: Message) {
    m.stamp.Some? ==> m.stamp.value.domain in marks && m.stamp.value.ns <= marks[m.stamp.value.domain]
  }

  /** marks holds, per domain, the highest timestamp among `start` and the messages. */
  ghost predicate HighestSeen(start: Watermarks, s: seq<Message>, marks: Watermarks) {
    && (forall d :: d in start ==> d in marks && start[d] <= marks[d])
    && (forall m :: m in s ==> Covers(marks, m))
    && (forall d :: d in marks ==> (d in start && start[d] == marks[d]) || exists m :: m in s && m.stamp == Some(Stamp(d, marks[d])))
  }

  lemma LateStaysLate(m: Message, marks: Watermarks, later: Watermarks, latenessNs: nat)
    requires Late(m, marks, latenessNs) && forall d :: d in marks ==> d in later && marks[d] <= later[d]
    ensures Late(m, later, latenessNs)
  {
  }

  lemma AdvancedSeen(start: Watermarks, s: seq<Message>, marks: Watermarks, m: Message, latenessNs: nat)
    requires HighestSeen(start, s, marks)
    ensures HighestSeen(start, s + [m], if Late(m, marks, latenessNs) then marks else Advanced(m, marks))
    ensures forall d :: d in marks ==> d in Advanced(m, marks) && marks[d] <= Advanced(m, marks)[d]
  {
    var marks' := if Late(m, marks, latenessNs) then marks else Advanced(m, marks);
    assert forall x :: x in s + [m] <==> x in s || x == m;
    forall x | x in s ensures Covers(marks', x) {
      assert Covers(marks, x);
    }
    forall d | d in marks'
      ensures (d in start && start[d] == marks'[d]) || exists x :: x in s + [m] && x.stamp == Some(Stamp(d, marks'[d]))
    {
      if m.stamp == Some(Stamp(d, marks'[d])) {
        assert m in s + [m];
      } else if exists x :: x in s && x.stamp == Some(Stamp(d, marks[d])) {
        var x :| x in s && x.stamp == Some(Stamp(d, marks[d]));
        assert x in s + [m];
      }
    }
  }

  /** A scan keeps or drops every message, its marks are the highest timestamps seen, and what it dropped is
      late against them. */
  lemma {:induction false} ScanSound(s: seq<Message>, start: Watermarks, latenessNs: nat)
    ensures var r := Scanned(s, start, latenessNs);
      && multiset(s) == multiset(r.kept) + multiset(r.late)
      && HighestSeen(start, s, r.marks) && forall m :: m in r.late ==> Late(m, r.marks, latenessNs)
  {
    hide HighestSeen, Late, Advanced;
    if s == [] {
      SeenNothing(start);
    } else {
      var front, m := s[..|s| - 1], s[|s| - 1];
      ScanSound(front, start, latenessNs);
      assert s == front + [m];
      var r := Scanned(front, start, latenessNs);
      AdvancedSeen(start, front, r.marks, m, latenessNs);
      forall x | x in r.late ensures Late(x, Scanned(s, start, latenessNs).marks, latenessNs) {
        LateStaysLate(x, r.marks, Scanned(s, start, latenessNs).marks, latenessNs);
      }
    }
  }

  lemma SeenNothing(start: Watermarks)
    ensures HighestSeen(start, [], start)
  {
  }

  method WatermarkQueue(queue: seq<Message>, start: Watermarks, latenessNs: nat)
    returns (retained: seq<Message>, marks: Watermarks, drops: nat)
    ensures var r := Scanned(queue, start, latenessNs); retained == r.kept && marks == r.marks && drops == |r.late|
  {
    retained, marks, drops := [], start, 0;
    for k := 0 to |queue|
      invariant var r := Scanned(queue[..k], start, latenessNs); retained == r.kept && marks == r.marks && drops == |r.late|
    {
      var message := queue[k];
      assert queue[..k + 1][..k] == queue[..k];
      if Late(message, marks, latenessNs) {
        drops := drops + 1;
      } else {
        marks := Advanced(message, marks);
        retained := retained + [message];
      }
    }
    assert queue[..|queue|] == queue;
  }

  // ----- the ledger over a whole run

  /** Every drained message is still pending, was emitted in an invocation, or was dropped and counted. */
  ghost predicate Ledger(drained: Queues, pending: Queues, emitted: Log, dropped: Log) {
    drained.Keys == pending.Keys && forall p :: p in drained ==>
      multiset(drained[p]) == multiset(pending[p]) + multiset(OnPort(emitted, p)) + multiset(OnPort(dropped, p))
  }

  lemma LedgerStep(drained: Queues, before: Queues, after: Queues, emitted: Log, dropped: Log, drops: Log, out: Log)
    requires Ledger(drained, before, emitted, dropped) && Balanced(before, after, drops + out)
    ensures Ledger(drained, after, emitted + out, dropped + drops)
  {
    hide OnPort;
    forall p | p in drained
      ensures multiset(drained[p]) ==
        multiset(after[p]) + multiset(OnPort(emitted + out, p)) + multiset(OnPort(dropped + drops, p))
    {
      OnPortConcat(emitted, out, p);
      OnPortConcat(dropped, drops, p);
      OnPortConcat(drops, out, p);
    }
  }

  function Received(q: Queues, arrivals: Queues): Queues {
    map p | p in q :: if p in arrivals then q[p] + arrivals[p] else q[p]
  }

  lemma LedgerReceive(drained: Queues, pending: Queues, emitted: Log, dropped: Log, arrivals: Queues)
    requires Ledger(drained, pending, emitted, dropped)
    ensures Ledger(Received(drained, arrivals), Received(pending, arrivals), emitted, dropped)
  {
    hide OnPort;
  }

  ghost predicate Spaced(times: seq<int>, gap: int) {
    forall i :: 0 <= i < |times| - 1 ==> times[i + 1] - times[i] >= gap
  }

  predicate Comparable(messages: Log) {
    && messages != [] && messages[0].1.stamp.Some?
    && forall e :: e in messages ==> e.1.stamp.Some? && e.1.stamp.value.domain == messages[0].1.stamp.value.domain
  }

  /** low and high are positions of an oldest and a newest message. */
  ghost predicate AreExtremes(messages: Log, low: nat, high: nat) {
    && low < |messages| && high < |messages|
    && forall k :: 0 <= k < |messages| ==> Ns(messages[low].1) <= Ns(messages[k].1) <= Ns(messages[high].1)
  }

  /** Positions of the first oldest and the first newest message. */
  method Extremes(messages: Log) returns (low: nat, high: nat)
    requires messages != []
    ensures low < |messages| && high < |messages| && AreExtremes(messages, low, high)
    ensures forall k :: 0 <= k < low ==> Ns(messages[low].1) < Ns(messages[k].1)
  {
    low, high := 0, 0;
    for k := 0 to |messages|
      invariant low < |messages| && high < |messages|
      invariant forall j :: 0 <= j < k ==> Ns(messages[low].1) <= Ns(messages[j].1) <= Ns(messages[high].1)
      invariant low <= k && forall j :: 0 <= j < low ==> Ns(messages[low].1) < Ns(messages[j].1)
    {
      if Ns(messages[k].1) < Ns(messages[low].1) {
        low := k;
      }
      if Ns(messages[k].1) > Ns(messages[high].1) {
        high := k;
      }
    }
  }

  /** What time_sync leaves behind: the first skip[p] messages of each input were dropped as useless; either an
      input ran out, or the next message of every input was emitted. */
  ghost predicate Synchronised(inputs: seq<Id>, q: Queues, after: Queues, out: seq<Log>, skip: Choice) {
    && q.Keys == after.Keys
    && (forall p :: p in inputs ==> p in q && p in skip && skip[p] <= |q[p]|)
    && (out == [] ==> (forall p :: p in inputs ==> after[p] == q[p][skip[p]..]) && exists p :: p in inputs && after[p] == [])
    && (out != [] ==> |out| == 1 && |out[0]| == |inputs| && forall i {:trigger inputs[i]} :: 0 <= i < |inputs| ==>
         skip[inputs[i]] < |q[inputs[i]]| && out[0][i] == (inputs[i], q[inputs[i]][skip[inputs[i]]]) &&
         after[inputs[i]] == q[inputs[i]][skip[inputs[i]] + 1..])
  }

  /** The promise of time_sync on orderly queues: a match is emitted exactly when there is one, it is the
      componentwise earliest, and no dropped message could ever have been part of a match. */
  ghost predicate SyncOptimal(inputs: seq<Id>, q: Queues, domain: Domain, slopNs: int, out: seq<Log>, skip: Choice) {
    && Skippable(inputs, q, domain, slopNs, skip)
    && (out != [] ==> Matching(inputs, q, skip, slopNs))
    && (out == [] ==> forall t :: !Matching(inputs, q, t, slopNs))
  }

  /** Invocations with one message each. */
  predicate Singles(out: seq<Log>) {
    forall i :: 0 <= i < |out| ==> |out[i]| == 1
  }

  lemma SinglesConcat(a: seq<Log>, b: seq<Log>)
    requires Singles(a) && Singles(b)
    ensures Singles(a + b)
  {
  }

  /** Everything pending, port by port. */
  function PortOrder(ports: seq<Id>, q: Queues): Log
    requires forall p :: p in ports ==> p in q
  {
    if ports == [] then []
    else
      var p := ports[|ports| - 1];
      PortOrder(ports[..|ports| - 1], q) + Tagged(p, q[p])
  }

  /** The newest message of every port that has one, port by port. */
  function NewestOrder(ports: seq<Id>, q: Queues): Log
    requires forall p :: p in ports ==> p in q
  {
    if ports == [] then []
    else
      var p := ports[|ports| - 1];
      NewestOrder(ports[..|ports| - 1], q) + if q[p] == [] then [] else [(p, q[p][|q[p]| - 1])]
  }

  function Coalesced(ports: seq<Id>, q: Queues): seq<Log>
    requires forall p :: p in ports ==> p in q
  {
    if NewestOrder(ports, q) == [] then [] else [NewestOrder(ports, q)]
  }

  lemma NoNewest(q: Queues)
    ensures NewestOrder([], q) == []
  {
  }

  lemma NewestOrderNext(ports: seq<Id>, q: Queues, k: nat)
    requires k < |ports| && forall p :: p in ports ==> p in q
    ensures var s := q[ports[k]];
      NewestOrder(ports[..k + 1], q) == NewestOrder(ports[..k], q) + if s == [] then [] else [(ports[k], s[|s| - 1])]
  {
    assert ports[..k + 1][..k] == ports[..k];
  }

  /** What any_input serves: everything, or the first message when invocations must keep a distance. */
  function Served(ports: seq<Id>, q: Queues, single: bool): Log
    requires forall p :: p in ports ==> p in q
  {
    var all := PortOrder(ports, q);
    if single && all != [] then all[..1] else all
  }

  lemma {:induction false} PortOrderPrefix(ports: seq<Id>, q: Queues, k: nat)
    requires k <= |ports| && forall p :: p in ports ==> p in q
    ensures PortOrder(ports[..k], q) <= PortOrder(ports, q)
    decreases |ports| - k
  {
    if k == |ports| {
      assert ports[..k] == ports;
    } else {
      PortOrderPrefix(ports, q, k + 1);
      assert ports[..k + 1][..k] == ports[..k];
    }
  }

  /** The group of front messages, if every input has one. */
  function FrontGroup(inputs: seq<Id>, q: Queues): seq<Log>
    requires forall p :: p in inputs ==> p in q
  {
    if AllFilled(inputs, q) then [Fronts(inputs, q)] else []
  }

  /** The watermark pass over the ports in order. */
  function ScanPorts(ports: seq<Id>, q: Queues, marks: Watermarks, latenessNs: nat): (r: (Queues, Watermarks))
    requires forall p :: p in ports ==> p in q
    ensures r.0.Keys == q.Keys
  {
    if ports == [] then (q, marks)
    else
      var (before, m) := ScanPorts(ports[..|ports| - 1], q, marks, latenessNs);
      var p := ports[|ports| - 1];
      var r := Scanned(before[p], m, latenessNs);
      (before[p := r.kept], r.marks)
  }

  // ----- what the timestamp condition drops and emits

  /** The fronts without a timestamp, input by input. */
  ghost function UnstampedFronts(inputs: seq<Id>, q: Queues): Log
    requires (forall p :: p in inputs ==> p in q) && AllFilled(inputs, q)
  {
    if inputs == [] then []
    else
      var p := inputs[|inputs| - 1];
      UnstampedFronts(inputs[..|inputs| - 1], q) + if q[p][0].stamp.None? then [(p, q[p][0])] else []
  }

  ghost function Trimmed(inputs: seq<Id>, q: Queues): Queues
    requires (forall p :: p in inputs ==> p in q) && AllFilled(inputs, q)
  {
    map p | p in q :: if p in inputs && q[p][0].stamp.None? then q[p][1..] else q[p]
  }

  /** While all inputs have a message, all fronts without a timestamp are dropped together; once there are none, the
      fronts are emitted. Without inputs nothing happens. */
  ghost predicate StampRun(inputs: seq<Id>, q: Queues, after: Queues, log: Log, out: seq<Log>)
    requires forall p :: p in inputs ==> p in q
    decreases |log|
  {
    if inputs == [] || !AllFilled(inputs, q) then log == [] && out == [] && after == q
    else
      var gone := UnstampedFronts(inputs, q);
      if gone == [] then log == [] && out == [Fronts(inputs, q)] && after == Consumed(inputs, q)
      else gone <= log && StampRun(inputs, Trimmed(inputs, q), after, log[|gone|..], out)
  }

  /** From here on, a run continues what was dropped so far. */
  ghost predicate GoesOn(inputs: seq<Id>, q: Queues, rest: Queues, log: Log)
    requires forall p :: p in inputs ==> p in q && p in rest
  {
    forall after, more, out {:trigger StampRun(inputs, rest, after, more, out)} ::
      StampRun(inputs, rest, after, more, out) ==> StampRun(inputs, q, after, log + more, out)
  }

  lemma GoesOnFirst(inputs: seq<Id>, q: Queues)
    requires forall p :: p in inputs ==> p in q
    ensures GoesOn(inputs, q, q, [])
  {
    hide StampRun;
    forall after, more: Log, out | StampRun(inputs, q, after, more, out) ensures StampRun(inputs, q, after, [] + more, out) {
      assert [] + more == more;
    }
  }

  lemma GoesOnStill(inputs: seq<Id>, q: Queues, rest: Queues, log: Log, gone: Log)
    requires (forall p :: p in inputs ==> p in q && p in rest) && inputs != [] && AllFilled(inputs, rest)
    requires GoesOn(inputs, q, rest, log) && gone == UnstampedFronts(inputs, rest) != []
    ensures GoesOn(inputs, q, Trimmed(inputs, rest), log + gone)
  {
    hide UnstampedFronts, Trimmed;
    var next := Trimmed(inputs, rest);
    assert next.Keys == rest.Keys by { TrimmedKeys(inputs, rest); }
    forall after, more, out | StampRun(inputs, next, after, more, out) ensures StampRun(inputs, q, after, log + gone + more, out) {
      assert (gone + more)[|gone|..] == more && gone <= gone + more;
      assert StampRun(inputs, rest, after, gone + more, out);
      assert log + (gone + more) == log + gone + more;
    }
  }

  lemma TrimmedKeys(inputs: seq<Id>, q: Queues)
    requires (forall p :: p in inputs ==> p in q) && AllFilled(inputs, q)
    ensures Trimmed(inputs, q).Keys == q.Keys
  {
  }

  lemma TrimmedNone(q: Queues)
    ensures UnstampedFronts([], q) == [] && Trimmed([], q) == q
  {
  }

  lemma TrimmedNext(inputs: seq<Id>, q: Queues, k: nat)
    requires (forall p :: p in inputs ==> p in q) && AllFilled(inputs, q) && k < |inputs| && Distinct(inputs)
    ensures inputs[k] in Trimmed(inputs[..k], q) && Trimmed(inputs[..k], q)[inputs[k]] == q[inputs[k]]
    ensures if q[inputs[k]][0].stamp.None? then
              && UnstampedFronts(inputs[..k + 1], q) == UnstampedFronts(inputs[..k], q) + [(inputs[k], q[inputs[k]][0])]
              && Trimmed(inputs[..k + 1], q) == Trimmed(inputs[..k], q)[inputs[k] := q[inputs[k]][1..]]
            else
              && UnstampedFronts(inputs[..k + 1], q) == UnstampedFronts(inputs[..k], q)
              && Trimmed(inputs[..k + 1], q) == Trimmed(inputs[..k], q)
  {
    hide UnstampedFronts, Trimmed, Distinct;
    FrontsNext(inputs, q, k);
    TrimsNext(inputs, q, k);
  }

  lemma FrontsNext(inputs: seq<Id>, q: Queues, k: nat)
    requires (forall p :: p in inputs ==> p in q) && AllFilled(inputs, q) && k < |inputs|
    ensures UnstampedFronts(inputs[..k + 1], q) ==
      UnstampedFronts(inputs[..k], q) + if q[inputs[k]][0].stamp.None? then [(inputs[k], q[inputs[k]][0])] else []
  {
    assert inputs[..k + 1][..k] == inputs[..k];
  }

  lemma TrimsNext(inputs: seq<Id>, q: Queues, k: nat)
    requires (forall p :: p in inputs ==> p in q) && AllFilled(inputs, q) && k < |inputs| && Distinct(inputs)
    ensures inputs[k] in Trimmed(inputs[..k], q) && Trimmed(inputs[..k], q)[inputs[k]] == q[inputs[k]]
    ensures Trimmed(inputs[..k + 1], q) ==
      if q[inputs[k]][0].stamp.None? then Trimmed(inputs[..k], q)[inputs[k] := q[inputs[k]][1..]] else Trimmed(inputs[..k], q)
  {
    var front, next := inputs[..k], inputs[..k + 1];
    assert inputs[k] !in front;
    forall p ensures p in next <==> p in front || p == inputs[k] {
      assert next == front + [inputs[k]];
    }
  }

  /** Dropping the fronts without a timestamp takes messages off the fronts of the queues. */
  lemma {:induction false} TrimmedFifo(inputs: seq<Id>, q: Queues)
    requires (forall p :: p in inputs ==> p in q) && AllFilled(inputs, q) && Distinct(inputs)
    ensures Fifo(q, Trimmed(inputs, q), UnstampedFronts(inputs, q)) && Unstamped(UnstampedFronts(inputs, q))
  {
    hide Fifo;
    if inputs == [] {
      TrimmedNone(q);
      FifoNothing(q);
    } else {
      var n := |inputs| - 1;
      TrimmedFifo(inputs[..n], q);
      TrimmedNext(inputs, q, n);
      assert inputs[..n + 1] == inputs;
      if q[inputs[n]][0].stamp.None? {
        FifoHead(Trimmed(inputs[..n], q), inputs[n]);
        FifoChain(q, Trimmed(inputs[..n], q), Trimmed(inputs, q), UnstampedFronts(inputs[..n], q), [(inputs[n], q[inputs[n]][0])]);
      }
    }
  }

  lemma {:induction false} TrimmedSize(inputs: seq<Id>, q: Queues, all: seq<Id>)
    requires (forall p :: p in inputs ==> p in q && p in all) && AllFilled(inputs, q) && Distinct(inputs) && Distinct(all)
    ensures Trimmed(inputs, q).Keys == q.Keys && Size(all, Trimmed(inputs, q)) <= Size(all, q)
    ensures UnstampedFronts(inputs, q) != [] ==> Size(all, Trimmed(inputs, q)) < Size(all, q)
  {
    hide Size;
    if inputs == [] {
      TrimmedNone(q);
    } else {
      var n := |inputs| - 1;
      TrimmedSize(inputs[..n], q, all);
      TrimmedNext(inputs, q, n);
      assert inputs[..n + 1] == inputs;
      if q[inputs[n]][0].stamp.None? {
        SizeDrop(all, Trimmed(inputs[..n], q), inputs[n], q[inputs[n]][1..]);
      }
    }
  }

  lemma StampNone(q: Queues)
    ensures StampRun([], q, q, [], [])
  {
  }

  lemma StampEnds(inputs: seq<Id>, q: Queues, rest: Queues, after: Queues, log: Log, out: seq<Log>)
    requires (forall p :: p in inputs ==> p in q && p in rest) && GoesOn(inputs, q, rest, log)
    requires if !AllFilled(inputs, rest) then out == [] && after == rest
      else inputs != [] && UnstampedFronts(inputs, rest) == [] && out == [Fronts(inputs, rest)] && after == Consumed(inputs, rest)
    ensures StampRun(inputs, q, after, log, out)
  {
    hide UnstampedFronts;
    assert StampRun(inputs, rest, after, [], out);
    assert log + [] == log;
  }

  lemma {:induction false} NoneUnstampedIn(inputs: seq<Id>, q: Queues)
    requires (forall p :: p in inputs ==> p in q) && AllFilled(inputs, q) && forall p :: p in inputs ==> q[p][0].stamp.Some?
    ensures UnstampedFronts(inputs, q) == []
  {
    if inputs != [] {
      NoneUnstampedIn(inputs[..|inputs| - 1], q);
      assert inputs[|inputs| - 1] in inputs;
    }
  }

  lemma {:induction false} AllStamped(inputs: seq<Id>, q: Queues)
    requires (forall p :: p in inputs ==> p in q) && AllFilled(inputs, q) && UnstampedFronts(inputs, q) == []
    ensures forall p :: p in inputs ==> q[p][0].stamp.Some?
  {
    if inputs != [] {
      var n := |inputs| - 1;
      AllStamped(inputs[..n], q);
      assert inputs == inputs[..n] + [inputs[n]];
    }
  }

  lemma NothingTrimmed(inputs: seq<Id>, q: Queues)
    requires (forall p :: p in inputs ==> p in q) && AllFilled(inputs, q) && forall p :: p in inputs ==> q[p][0].stamp.Some?
    ensures Trimmed(inputs, q) == q
  {
  }

  // ----- the order of a batch

  lemma NoneInOrder(q: Queues)
    ensures PortOrder([], q) == []
  {
  }

  lemma {:induction false} OrderSize(ports: seq<Id>, q: Queues)
    requires forall p :: p in ports ==> p in q
    ensures |PortOrder(ports, q)| == Size(ports, q)
  {
    if ports != [] {
      OrderSize(ports[..|ports| - 1], q);
    }
  }

  /** A batch grows by the oldest messages of the next input. */
  lemma BatchGrows(ports: seq<Id>, q: Queues, k: nat, messages: Log, taken: Log, room: nat)
    requires k < |ports| && (forall p :: p in ports ==> p in q) && room <= |q[ports[k]]|
    requires messages <= PortOrder(ports[..k], q) && (room > 0 ==> messages == PortOrder(ports[..k], q))
    requires taken == Tagged(ports[k], q[ports[k]][..room])
    ensures |taken| == room && messages + taken <= PortOrder(ports[..k + 1], q)
    ensures messages == PortOrder(ports[..k], q) && room == |q[ports[k]]| ==> messages + taken == PortOrder(ports[..k + 1], q)
  {
    assert ports[..k + 1][..k] == ports[..k];
    var all := Tagged(ports[k], q[ports[k]]);
    assert taken <= all;
    assert PortOrder(ports[..k + 1], q) == PortOrder(ports[..k], q) + all;
  }

  class TriggerPolicyEngine {
    const policy: PolicySpec
    const inputs: seq<Id>
    const ports: seq<Id>
    const hasTimer: bool
    const hasMessages: bool
    const capacity: map<Id, nat>
    var pending: Queues
    var lastInvoked: Option<int>
    var watermarks: Watermarks
    var stats: Stats
    ghost var drained: Queues
    ghost var emitted: Log
    ghost var dropped: Log
    ghost var emissions: seq<int>

    ghost predicate Shaped()
      reads this
    {
      && Distinct(inputs) && Distinct(ports) && (forall p :: p in ports <==> p in inputs)
      && pending.Keys == Elements(inputs)
    }

    ghost predicate Valid()
      reads this
    {
      && Shaped() && Sorted(ports)
      && Ledger(drained, pending, emitted, dropped)
      && (policy.minIntervalMs > 0 ==> Spaced(emissions, policy.minIntervalMs * MILLISECOND))
      && lastInvoked == if emissions == [] then None else Some(emissions[|emissions| - 1])
    }

    constructor (policy: PolicySpec, inputs: seq<Id>, hasTimer: bool, hasMessages: bool, capacity: map<Id, nat>)
      requires Distinct(inputs)
      ensures Valid() && drained == map p | p in inputs :: []
      ensures emitted == [] && dropped == [] && emissions == [] && watermarks == map[] && stats == NO_STATS
      ensures this.policy == policy && this.inputs == inputs && this.capacity == capacity
      ensures this.hasTimer == hasTimer && this.hasMessages == hasMessages
    {
      this.policy, this.inputs, this.hasTimer, this.hasMessages := policy, inputs, hasTimer, hasMessages;
      this.capacity := capacity;
      ports := SortIds(inputs);
      pending := map p | p in inputs :: [];
      lastInvoked, watermarks, stats := None, map[], NO_STATS;
      drained := map p | p in inputs :: [];
      emitted, dropped, emissions := [], [], [];
      new;
      SortIdsSorts(inputs);
      MultisetDistinct(inputs, ports);
    }

    method DrainInputs(arrivals: Queues)
      requires Shaped()
      modifies `pending
      ensures Shaped() && pending == Received(old(pending), arrivals)
    {
      hide Distinct;
      for k := 0 to |inputs|
        invariant Shaped()
        invariant forall j :: 0 <= j < k ==> pending[inputs[j]] == Received(old(pending), arrivals)[inputs[j]]
        invariant forall j :: k <= j < |inputs| ==> pending[inputs[j]] == old(pending)[inputs[j]]
      {
        OthersDiffer(inputs, k);
        var input := inputs[k];
        if input in arrivals {
          pending := pending[input := pending[input] + arrivals[input]];
        }
      }
      assert forall p :: p in pending ==> p in inputs;
    }

    method PrunePort(port: Id, now: int) returns (drops: nat, ghost log: Log)
      requires Shaped() && port in inputs
      modifies `pending
      ensures Shaped() && Balanced(old(pending), pending, log) && drops == |log|
      ensures pending == old(pending)[port := Split(old(pending)[port], now, policy.maxLatencyMs).0]
      ensures AllTimedOut(log, now, policy.maxLatencyMs)
    {
      hide Balanced, Split, Distinct, TimedOut;
      var retained, n := PruneQueue(pending[port], now, policy.maxLatencyMs);
      ghost var gone := Split(pending[port], now, policy.maxLatencyMs).1;
      SplitBalanced(pending[port], now, policy.maxLatencyMs);
      BalancedOnPort(pending, port, retained, gone);
      pending := pending[port := retained];
      drops, log := n, Tagged(port, gone);
    }

    /** Drops what waited longer than the latency limit, if there is one. */
    method PruneTimedOut(now: int) returns (drops: nat, ghost log: Log)
      requires Shaped()
      modifies `pending
      ensures Shaped() && Balanced(old(pending), pending, log) && drops == |log|
      ensures policy.maxLatencyMs == 0 ==> log == [] && pending == old(pending)
      ensures policy.maxLatencyMs > 0 ==>
        forall p :: p in inputs ==> pending[p] == Split(old(pending)[p], now, policy.maxLatencyMs).0
      ensures AllTimedOut(log, now, policy.maxLatencyMs)
    {
      hide Balanced, Split, AllTimedOut, Distinct, Pruned;
      drops, log := 0, [];
      NoneTimedOut(now, policy.maxLatencyMs);
      BalancedNothing(pending);
      if policy.maxLatencyMs == 0 {
        return;
      }
      ghost var q := pending;
      PrunedNone(q, ports, now, policy.maxLatencyMs);
      for k := 0 to |ports|
        invariant Shaped() && Balanced(q, pending, log) && drops == |log|
        invariant pending == Pruned(q, Elements(ports[..k]), now, policy.maxLatencyMs)
        invariant AllTimedOut(log, now, policy.maxLatencyMs)
      {
        ghost var before := pending;
        assert ports[k] in inputs && ports[k] in q;
        PrunedNext(q, ports, k, now, policy.maxLatencyMs);
        var n, gone := PrunePort(ports[k], now);
        BalancedChain(q, before, pending, log, gone);
        AllTimedOutConcat(log, gone, now, policy.maxLatencyMs);
        drops, log := drops + n, log + gone;
      }
      assert ports[..|ports|] == ports;
      PrunedAll(q, inputs, ports, now, policy.maxLatencyMs);
    }

    /** How many messages an input may hold back. */
    function Limit(port: Id): (n: nat)
      ensures n >= 1
      ensures policy.kind == "debounce" || policy.coalesce ==> n == 1
      ensures policy.kind != "debounce" && !policy.coalesce ==>
        && n > 1 && n > policy.batchSize && (port in capacity ==> n > capacity[port])
        && (n == 2 || n == policy.batchSize + 1 || (port in capacity && n == capacity[port] + 1))
    {
      if policy.kind == "debounce" || policy.coalesce then 1
      else
        var base := if port in capacity && capacity[port] > 1 then capacity[port] else 1;
        (if policy.batchSize > base then policy.batchSize else base) + 1
    }

    /** Drops the oldest messages of every input that holds back more than its limit. */
    method EnforceBounds() returns (drops: nat, ghost log: Log)
      requires Shaped()
      modifies `pending
      ensures Shaped() && Fifo(old(pending), pending, log) && drops == |log|
      ensures forall p :: p in inputs ==>
        pending[p] == Newest(old(pending)[p], Limit(p))
    {
      hide Fifo, Distinct, Newest;
      drops, log := 0, [];
      FifoNothing(pending);
      for k := 0 to |ports|
        invariant Shaped() && Fifo(old(pending), pending, log) && drops == |log|
        invariant forall j :: 0 <= j < k ==> pending[ports[j]] == Newest(old(pending)[ports[j]], Limit(ports[j]))
        invariant forall j :: k <= j < |ports| ==> pending[ports[j]] == old(pending)[ports[j]]
      {
        ghost var before := pending;
        OthersDiffer(ports, k);
        var n, gone := TrimPort(ports[k]);
        FifoChain(old(pending), before, pending, log, gone);
        drops, log := drops + n, log + gone;
      }
      forall p | p in inputs ensures pending[p] == Newest(old(pending)[p], Limit(p)) {
        assert p in ports;
      }
    }

    method TrimPort(port: Id) returns (drops: nat, ghost log: Log)
      requires Shaped() && port in inputs
      modifies `pending
      ensures Shaped() && Fifo(old(pending), pending, log) && drops == |log|
      ensures pending == old(pending)[port := Newest(old(pending)[port], Limit(port))]
    {
      hide Fifo, Distinct;
      drops, log := 0, [];
      ghost var q := pending[port];
      FifoNothing(pending);
      assert q[0..] == q;
      while |pending[port]| > Limit(port)
        invariant Shaped() && Fifo(old(pending), pending, log) && drops == |log|
        invariant drops <= |q| && (drops == 0 || |q| - drops >= Limit(port)) && pending == old(pending)[port := q[drops..]]
        decreases |pending[port]|
      {
        FifoHead(pending, port);
        ghost var before := pending;
        log := log + [(port, pending[port][0])];
        pending := pending[port := pending[port][1..]];
        FifoChain(old(pending), before, pending, log[..drops], [(port, before[port][0])]);
        drops := drops + 1;
      }
    }

    // ----- the policies

    /** The pending messages of one input, each as an invocation of its own; only the first one when
        invocations must keep a distance. */
    method CollectPort(port: Id) returns (out: seq<Log>)
      requires Shaped() && port in inputs
      modifies `pending
      ensures Shaped() && Fifo(old(pending), pending, Flatten(out)) && Singles(out)
      ensures pending == old(pending)[port := pending[port]]
      ensures if policy.minIntervalMs > 0 && old(pending)[port] != [] then |out| == 1 else pending[port] == []
      ensures old(pending)[port] == [] ==> out == []
      ensures Flatten(out) ==
        if policy.minIntervalMs > 0 && old(pending)[port] != [] then [(port, old(pending)[port][0])] else Tagged(port, old(pending)[port])
    {
      hide Fifo, Distinct, Flatten, Tagged;
      out := [];
      FifoNothing(pending);
      FlattenEmpty();
      TaggedNone(port);
      while pending[port] != []
        invariant Shaped() && Fifo(old(pending), pending, Flatten(out)) && Singles(out)
        invariant pending == old(pending)[port := pending[port]]
        invariant old(pending)[port] == [] || policy.minIntervalMs > 0 ==> pending == old(pending) && out == []
        invariant Tagged(port, old(pending)[port]) == Flatten(out) + Tagged(port, pending[port])
        decreases |pending[port]|
      {
        ghost var before := pending;
        FifoHead(pending, port);
        TaggedHead(port, pending[port]);
        var one := [(port, pending[port][0])];
        pending := pending[port := pending[port][1..]];
        FifoChain(old(pending), before, pending, Flatten(out), one);
        FlattenPush(out, one);
        out := out + [one];
        if policy.minIntervalMs > 0 {
          return;
        }
      }
    }

    /** Every pending message becomes an invocation of its own, input by input; only the first one when
        invocations must keep a distance. */
    method CollectAnyInput() returns (out: seq<Log>)
      requires Shaped()
      modifies `pending
      ensures Shaped() && Fifo(old(pending), pending, Flatten(out)) && Singles(out)
      ensures policy.minIntervalMs > 0 ==> |out| <= 1
      ensures policy.minIntervalMs == 0 || out == [] ==> forall p :: p in inputs ==> pending[p] == []
      ensures Flatten(out) == Served(ports, old(pending), policy.minIntervalMs > 0)
    {
      hide Fifo, Distinct, Flatten, PortOrder, Tagged, Served, Singles, ServedUpTo;
      out := [];
      ServedNothing(ports, pending);
      for k := 0 to |ports|
        invariant Shaped() && ServedUpTo(ports, old(pending), pending, k, out)
        invariant policy.minIntervalMs > 0 ==> out == []
      {
        ghost var before := pending;
        PortUntouched(ports, old(pending), before, k, out);
        var more := CollectPort(ports[k]);
        ServedStep(ports, old(pending), before, pending, k, out, more);
        out := out + more;
        if policy.minIntervalMs > 0 && more != [] {
          return;
        }
      }
      ServedWhole(ports, old(pending), pending, out);
      forall p | p in inputs ensures pending[p] == [] {
        assert p in ports;
      }
    }

    /** One invocation with the newest message of every input that has one; what was older is gone. Nothing is
        when each input held at most one message. */
    method CollectCoalesced() returns (out: seq<Log>)
      requires Shaped()
      modifies `pending
      ensures Shaped() && |out| <= 1 && forall p :: p in inputs ==> pending[p] == []
      ensures (forall p :: p in inputs ==> |old(pending)[p]| <= 1) ==> Fifo(old(pending), pending, Flatten(out))
      ensures out == Coalesced(ports, old(pending))
    {
      hide Fifo, Distinct, NewestOrder;
      var messages: Log := [];
      FifoNothing(pending);
      NoNewest(pending);
      assert ports[..0] == [];
      for k := 0 to |ports|
        invariant Shaped() && messages == NewestOrder(ports[..k], old(pending))
        invariant (forall p :: p in inputs ==> |old(pending)[p]| <= 1) ==> Fifo(old(pending), pending, messages)
        invariant forall j :: k <= j < |ports| ==> pending[ports[j]] == old(pending)[ports[j]]
        invariant forall j :: 0 <= j < k ==> pending[ports[j]] == []
      {
        OthersDiffer(ports, k);
        var port := ports[k];
        NewestOrderNext(ports, old(pending), k);
        if pending[port] != [] {
          ghost var before := pending;
          FifoHead(pending, port);
          var newest := pending[port][|pending[port]| - 1];
          assert |pending[port]| <= 1 ==> pending[port][1..] == [];
          pending := pending[port := []];
          if forall p :: p in inputs ==> |old(pending)[p]| <= 1 {
            FifoChain(old(pending), before, pending, messages, [(port, newest)]);
          }
          messages := messages + [(port, newest)];
        }
      }
      assert ports[..|ports|] == ports;
      forall p | p in inputs ensures pending[p] == [] {
        assert p in ports;
      }
      FlattenPush([], messages);
      assert [] + [messages] == [messages] && [] + messages == messages;
      out := if messages == [] then [] else [messages];
    }

    method ConsumeFronts() returns (messages: Log)
      requires Shaped() && AllFilled(inputs, pending)
      modifies `pending
      ensures Shaped() && messages == Fronts(inputs, old(pending)) && pending == Consumed(inputs, old(pending))
    {
      messages := Fronts(inputs, pending);
      for k := 0 to |inputs|
        invariant Shaped()
        invariant forall j :: 0 <= j < k ==> pending[inputs[j]] == old(pending)[inputs[j]][1..]
        invariant forall j :: k <= j < |inputs| ==> pending[inputs[j]] == old(pending)[inputs[j]]
      {
        OthersDiffer(inputs, k);
        pending := pending[inputs[k] := pending[inputs[k]][1..]];
      }
      assert forall p :: p in pending ==> p in inputs;
    }

    /** One invocation with the oldest message of every input, once each input has one. */
    method CollectAllInputs() returns (out: seq<Log>)
      requires Shaped()
      modifies `pending
      ensures Shaped() && Fifo(old(pending), pending, Flatten(out))
      ensures if AllFilled(inputs, old(pending)) then out == [Fronts(inputs, old(pending))] && pending == Consumed(inputs, old(pending))
              else out == [] && pending == old(pending)
    {
      hide Fifo, Distinct;
      if !AllFilled(inputs, pending) {
        FifoNothing(pending);
        return [];
      }
      FifoFronts(inputs, pending);
      var messages := ConsumeFronts();
      FlattenPush([], messages);
      assert [] + [messages] == [messages] && [] + messages == messages;
      out := [messages];
    }

    /** One invocation with messages of every input whose timestamps lie within the slop; older messages that
        cannot find company are dropped. Without a slop, or without comparable timestamps, the fronts go. */
    method CollectTimeSync(ghost domain: Domain)
      returns (out: seq<Log>, drops: nat, ghost log: Log, ghost skip: Choice)
      requires Shaped()
      modifies `pending
      ensures Shaped() && Fifo(old(pending), pending, log + Flatten(out)) && drops == |log| && |out| <= 1
      ensures Synchronised(inputs, old(pending), pending, out, skip)
      ensures inputs != [] && policy.syncSlopMs > 0 && Orderly(inputs, old(pending), domain) ==>
        SyncOptimal(inputs, old(pending), domain, policy.syncSlopMs * MILLISECOND, out, skip)
      ensures policy.syncSlopMs == 0 ==> out == FrontGroup(inputs, old(pending)) && log == []
      ensures SyncRun(inputs, old(pending), pending, log, out, policy.syncSlopMs * MILLISECOND)
    {
      hide Fifo, Distinct, Skippable, Orderly, Flatten, Synchronised, SyncOptimal, Size, Matching, AreExtremes, Comparable, Dropped,
        SyncRun, DropStep, Continues, OneDomain, FrontsClose;
      var slopNs := policy.syncSlopMs * MILLISECOND;
      ghost var q := pending;
      out, drops, log, skip := [], 0, [], map p | p in inputs :: 0;
      FifoNothing(q);
      NothingDropped(inputs, q, domain, slopNs, skip);
      ContinuesFirst(inputs, q, slopNs);
      while AllFilled(inputs, pending)
        invariant Shaped() && Fifo(q, pending, log) && drops == |log|
        invariant Dropped(inputs, q, skip, pending) && Skippable(inputs, q, domain, slopNs, skip)
        invariant out == [] && (policy.syncSlopMs == 0 ==> pending == q && log == [])
        invariant Continues(inputs, q, pending, log, slopNs)
        decreases Size(inputs, pending)
      {
        var ready, oldest, newest := FrontsReady(q, domain, skip);
        if ready {
          ghost var last, gone := pending, log;
          out, log := EmitFronts(q, skip, log);
          RunStops(inputs, q, last, pending, gone, out, slopNs);
          if inputs != [] && policy.syncSlopMs > 0 && Orderly(inputs, q, domain) {
            OptimalEmit(inputs, q, domain, slopNs, skip, out);
          }
          return;
        }
        DropOldest(inputs, q, domain, slopNs, skip, pending, log, oldest, newest);
        ContinuesOn(inputs, q, pending, log, (oldest, pending[oldest][0]), slopNs);
        log := log + [(oldest, pending[oldest][0])];
        pending := pending[oldest := pending[oldest][1..]];
        skip := skip[oldest := skip[oldest] + 1];
        drops := drops + 1;
      }
      RanOut(inputs, q, domain, slopNs, skip, pending);
      RunStops(inputs, q, pending, pending, log, [], slopNs);
      assert log + Flatten(out) == log by { FlattenEmpty(); }
    }

    /** Whether the fronts may go together, and otherwise inputs with an oldest and a newest front. */
    method FrontsReady(ghost q: Queues, ghost domain: Domain, ghost skip: Choice) returns (ready: bool, oldest: Id, newest: Id)
      requires Shaped() && AllFilled(inputs, pending) && Dropped(inputs, q, skip, pending)
      ensures ready && inputs != [] && policy.syncSlopMs > 0 && Orderly(inputs, q, domain) ==>
        Matching(inputs, q, skip, policy.syncSlopMs * MILLISECOND)
      ensures ready || (oldest in inputs && newest in inputs)
      ensures policy.syncSlopMs == 0 ==> ready
      ensures ready || Ns(pending[newest][0]) - Ns(pending[oldest][0]) > policy.syncSlopMs * MILLISECOND
      ensures ready ==> policy.syncSlopMs == 0 || !OneDomain(inputs, pending) || FrontsClose(inputs, pending, policy.syncSlopMs * MILLISECOND)
      ensures ready || DropStep(inputs, pending, (oldest, pending[oldest][0]), policy.syncSlopMs * MILLISECOND)
    {
      hide Distinct, Orderly, Matching, AreExtremes, Comparable, Dropped, OneDomain, FrontsClose, IsOldest;
      var slopNs := policy.syncSlopMs * MILLISECOND;
      var messages := Fronts(inputs, pending);
      ComparableFilled(messages);
      ComparableIff(inputs, pending);
      FrontsComparable(inputs, q, domain, skip, pending);
      if policy.syncSlopMs == 0 || !Comparable(messages) {
        return true, "", "";
      }
      var low, high := Extremes(messages);
      oldest, newest := messages[low].0, messages[high].0;
      ready := Ns(messages[high].1) - Ns(messages[low].1) <= slopNs;
      OldestFirst(inputs, pending, low, high, slopNs);
      assert oldest == inputs[low] && newest == inputs[high] && inputs[low] in inputs && slopNs > 0;
      if ready {
        FrontsWithin(inputs, pending, low, high, slopNs);
        CloseFrontsMatch(inputs, q, slopNs, skip, pending);
      }
    }

    /** Emits the fronts after some messages were dropped. */
    method EmitFronts(ghost q: Queues, ghost skip: Choice, ghost log: Log) returns (out: seq<Log>, ghost log': Log)
      requires Shaped() && AllFilled(inputs, pending) && Fifo(q, pending, log) && Dropped(inputs, q, skip, pending)
      modifies `pending
      ensures Shaped() && log' == log && Fifo(q, pending, log + Flatten(out)) && out == [Fronts(inputs, old(pending))]
      ensures pending == Consumed(inputs, old(pending))
      ensures Synchronised(inputs, q, pending, out, skip)
    {
      hide Fifo, Distinct, Flatten, Synchronised;
      ghost var before := pending;
      FifoFronts(inputs, pending);
      SynchronisedFronts(inputs, q, before, skip);
      var messages := ConsumeFronts();
      FlattenOne(messages);
      out, log' := [messages], log;
      FifoChain(q, before, pending, log, Flatten(out));
    }

    /** Drops late messages input by input while the watermarks rise. */
    method DropLate() returns (drops: nat, ghost log: Log)
      requires Shaped()
      modifies `pending, `watermarks
      ensures Shaped() && Balanced(old(pending), pending, log) && drops == |log|
      ensures Risen(old(watermarks), watermarks)
      ensures AllLate(log, watermarks, policy.watermarkLatenessMs * MILLISECOND)
      ensures forall p :: p in inputs ==> CoversAll(watermarks, old(pending)[p])
      ensures (pending, watermarks) == ScanPorts(ports, old(pending), old(watermarks), policy.watermarkLatenessMs * MILLISECOND)
    {
      hide Balanced, Distinct, CoversAll, AllLate, Risen, CoversPorts, Scanned, ScanPorts;
      var lateness := policy.watermarkLatenessMs * MILLISECOND;
      drops, log := 0, [];
      BalancedNothing(pending);
      NothingLate(watermarks, lateness, pending);
      NoPortsScanned(pending, watermarks, lateness);
      assert ports[..0] == [];
      for k := 0 to |ports|
        invariant Shaped() && Balanced(old(pending), pending, log) && drops == |log|
        invariant Risen(old(watermarks), watermarks) && AllLate(log, watermarks, lateness)
        invariant CoversPorts(watermarks, old(pending), ports[..k])
        invariant (pending, watermarks) == ScanPorts(ports[..k], old(pending), old(watermarks), lateness)
        invariant forall j :: k <= j < |ports| ==> pending[ports[j]] == old(pending)[ports[j]]
      {
        OthersDiffer(ports, k);
        ghost var before, marks := pending, watermarks;
        ScanPortsNext(ports, old(pending), old(watermarks), lateness, k);
        var n, gone := DropLatePort(ports[k]);
        BalancedChain(old(pending), before, pending, log, gone);
        RisenLate(old(watermarks), log, gone, marks, watermarks, lateness);
        CoversRisenAll(marks, watermarks, old(pending), ports[..k]);
        CoversOneMore(watermarks, old(pending), ports, k);
        drops, log := drops + n, log + gone;
      }
      assert ports[..|ports|] == ports;
      PortsCovered(inputs, ports, old(pending), watermarks);
    }

    method DropLatePort(port: Id) returns (drops: nat, ghost log: Log)
      requires Shaped() && port in inputs
      modifies `pending, `watermarks
      ensures Shaped() && Balanced(old(pending), pending, log) && drops == |log|
      ensures pending == old(pending)[port := pending[port]] && Risen(old(watermarks), watermarks)
      ensures AllLate(log, watermarks, policy.watermarkLatenessMs * MILLISECOND)
      ensures CoversAll(watermarks, old(pending)[port])
      ensures var r := Scanned(old(pending)[port], old(watermarks), policy.watermarkLatenessMs * MILLISECOND);
        pending == old(pending)[port := r.kept] && watermarks == r.marks && log == Tagged(port, r.late)
    {
      hide Balanced, Distinct, Covers, Late;
      var lateness := policy.watermarkLatenessMs * MILLISECOND;
      ghost var r := Scanned(pending[port], watermarks, lateness);
      ScanSound(pending[port], watermarks, lateness);
      BalancedOnPort(pending, port, r.kept, r.late);
      var retained, marks, n := WatermarkQueue(pending[port], watermarks, lateness);
      pending := pending[port := retained];
      watermarks := marks;
      drops, log := n, Tagged(port, r.late);
    }

    method CollectWatermark() returns (out: seq<Log>, drops: nat, ghost log: Log)
      requires Shaped()
      modifies `pending, `watermarks
      ensures Shaped() && Balanced(old(pending), pending, log + Flatten(out)) && drops == |log|
      ensures policy.minIntervalMs > 0 ==> |out| <= 1
      ensures AllLate(log, watermarks, policy.watermarkLatenessMs * MILLISECOND)
      ensures forall p :: p in inputs ==> CoversAll(watermarks, old(pending)[p])
      ensures Flatten(out) == Served(ports, ScanPorts(ports, old(pending), old(watermarks), policy.watermarkLatenessMs * MILLISECOND).0,
        policy.minIntervalMs > 0)
      ensures Singles(out)
      ensures Fifo(ScanPorts(ports, old(pending), old(watermarks), policy.watermarkLatenessMs * MILLISECOND).0, pending, Flatten(out))
    {
      hide Balanced, Distinct, CoversAll, AllLate, ScanPorts, Served, Singles, Fifo;
      drops, log := DropLate();
      ghost var before := pending;
      out := CollectAnyInput();
      FifoIsBalanced(before, pending, Flatten(out));
      BalancedChain(old(pending), before, pending, log, Flatten(out));
    }

    /** Pops every front message without a timestamp. */
    method DropUnstampedFronts() returns (drops: nat, ghost log: Log)
      requires Shaped() && AllFilled(inputs, pending)
      modifies `pending
      ensures Shaped() && drops == |log| && log == UnstampedFronts(inputs, old(pending)) && pending == Trimmed(inputs, old(pending))
    {
      hide Distinct, UnstampedFronts, Trimmed;
      ghost var q := pending;
      drops, log := 0, [];
      assert inputs[..0] == [];
      TrimmedNone(q);
      for k := 0 to |inputs|
        invariant Shaped() && drops == |log| && log == UnstampedFronts(inputs[..k], q) && pending == Trimmed(inputs[..k], q)
      {
        TrimmedNext(inputs, q, k);
        if pending[inputs[k]][0].stamp.None? {
          drops, log := drops + 1, log + [(inputs[k], pending[inputs[k]][0])];
          pending := pending[inputs[k] := pending[inputs[k]][1..]];
        }
      }
      assert inputs[..|inputs|] == inputs;
    }

    /** One message of each input, in order, all with a timestamp. */
    predicate Stamped(messages: Log)
    {
      |messages| == |inputs| && forall i :: 0 <= i < |inputs| ==> messages[i].0 == inputs[i] && messages[i].1.stamp.Some?
    }

    /** The oldest group of front messages that all carry a timestamp; fronts without one are dropped. */
    method CollectStamped() returns (out: seq<Log>, drops: nat, ghost log: Log)
      requires Shaped()
      modifies `pending
      ensures Shaped() && Fifo(old(pending), pending, log + Flatten(out)) && drops == |log| && |out| <= 1
      ensures Unstamped(log)
      ensures out == [] ==> inputs == [] || exists p :: p in inputs && pending[p] == []
      ensures out != [] ==> Stamped(out[0])
      ensures StampRun(inputs, old(pending), pending, log, out)
    {
      hide Fifo, Distinct, Size, Flatten, StampRun, GoesOn, UnstampedFronts, Trimmed;
      out, drops, log := [], 0, [];
      ghost var q := pending;
      FifoNothing(q);
      FlattenEmpty();
      assert log + Flatten(out) == log;
      if inputs == [] {
        StampNone(q);
        return;
      }
      GoesOnFirst(inputs, q);
      while AllFilled(inputs, pending)
        invariant Shaped() && Fifo(q, pending, log) && drops == |log| && Unstamped(log)
        invariant out == [] && GoesOn(inputs, q, pending, log)
        decreases Size(inputs, pending)
      {
        ghost var before := pending;
        TrimmedFifo(inputs, before);
        TrimmedSize(inputs, before, inputs);
        var n, gone := DropUnstampedFronts();
        FifoChain(q, before, pending, log, gone);
        if n == 0 {
          AllStamped(inputs, before);
          NothingTrimmed(inputs, before);
          out := EmitStamped(q, log);
          return;
        }
        GoesOnStill(inputs, q, before, log, gone);
        drops, log := drops + n, log + gone;
      }
      StampEnds(inputs, q, pending, pending, log, []);
      assert log + Flatten(out) == log;
    }

    /** All fronts carry a timestamp, and go together. */
    method EmitStamped(ghost q: Queues, ghost log: Log) returns (out: seq<Log>)
      requires Shaped() && inputs != [] && AllFilled(inputs, pending) && Fifo(q, pending, log)
      requires (forall p :: p in inputs ==> p in q && pending[p][0].stamp.Some?) && GoesOn(inputs, q, pending, log)
      modifies `pending
      ensures Shaped() && Fifo(q, pending, log + Flatten(out)) && |out| == 1 && Stamped(out[0])
      ensures StampRun(inputs, q, pending, log, out)
    {
      hide Fifo, Distinct, Flatten, StampRun, GoesOn;
      ghost var before := pending;
      var messages := ConsumeFronts();
      FifoFronts(inputs, before);
      FlattenOne(messages);
      FifoChain(q, before, pending, log, messages);
      out := [messages];
      NoneUnstampedIn(inputs, before);
      StampEnds(inputs, q, before, pending, log, out);
    }

    /** What each condition emits; an unknown one emits nothing and keeps everything. */
    ghost predicate ConditionRight(q: Queues, after: Queues, out: seq<Log>)
      requires q.Keys == after.Keys && (forall p :: p in inputs ==> p in q) && (forall p :: p in ports ==> p in q)
    {
      if policy.condition == "any_input_ready" then Singles(out) && Flatten(out) == Served(ports, q, policy.minIntervalMs > 0)
      else if policy.condition == "" || policy.condition == "all_inputs_ready" then out == FrontGroup(inputs, q)
      else if policy.condition == "event_timestamp_present" then
        if out == [] then inputs == [] || !AllFilled(inputs, after)
        else |out| == 1 && Stamped(out[0])
      else out == [] && after == q
    }

    /** Emission under a named condition on the inputs. */
    method CollectCondition() returns (out: seq<Log>, drops: nat, suppressed: bool, ghost log: Log)
      requires Shaped()
      modifies `pending
      ensures Shaped() && Fifo(old(pending), pending, log + Flatten(out)) && drops == |log|
      ensures policy.minIntervalMs > 0 ==> |out| <= 1
      ensures suppressed <==> out == []
      ensures Unstamped(log) && (policy.condition != "event_timestamp_present" ==> log == [])
      ensures ConditionRight(old(pending), pending, out)
      ensures policy.condition == "event_timestamp_present" ==> StampRun(inputs, old(pending), pending, log, out)
    {
      hide Fifo, Distinct, Flatten, Served, Singles, Stamped, Unstamped, StampRun;
      NoneUnstamped();
      var condition := if policy.condition == "" then "all_inputs_ready" else policy.condition;
      drops, log := 0, [];
      if condition == "any_input_ready" {
        out := CollectAnyInput();
      } else if condition == "all_inputs_ready" {
        out := CollectAllInputs();
      } else if condition == "event_timestamp_present" {
        out, drops, log := CollectStamped();
      } else {
        out := [];
        FifoNothing(pending);
        FlattenEmpty();
      }
      assert [] + Flatten(out) == Flatten(out);
      suppressed := out == [];
    }

    /** The arrival time of the message that has waited longest at the front of an input. */
    method OldestFront() returns (oldest: Option<int>)
      requires Shaped()
      ensures oldest.None? ==> forall p :: p in inputs ==> pending[p] == []
      ensures oldest.Some? ==> exists p :: p in inputs && pending[p] != [] && pending[p][0].receivedAt == oldest.value
      ensures oldest.Some? ==> forall p :: p in inputs && pending[p] != [] ==> oldest.value <= pending[p][0].receivedAt
    {
      hide Distinct;
      oldest := None;
      for k := 0 to |inputs|
        invariant oldest.None? ==> forall j :: 0 <= j < k ==> pending[inputs[j]] == []
        invariant oldest.Some? ==> exists p :: p in inputs && pending[p] != [] && pending[p][0].receivedAt == oldest.value
        invariant oldest.Some? ==> forall j :: 0 <= j < k && pending[inputs[j]] != [] ==>
          oldest.value <= pending[inputs[j]][0].receivedAt
      {
        var s := pending[inputs[k]];
        if s != [] && (oldest.None? || s[0].receivedAt < oldest.value) {
          assert inputs[k] in inputs;
          oldest := Some(s[0].receivedAt);
        }
      }
    }

    /** Takes the oldest messages of the inputs, input by input, until the batch is full. */
    method TakeBatch(target: nat) returns (messages: Log)
      requires Shaped() && target <= Size(inputs, pending)
      modifies `pending
      ensures Shaped() && Fifo(old(pending), pending, messages) && |messages| == target
      ensures messages <= PortOrder(inputs, old(pending))
    {
      hide Fifo, Distinct, Size, PortOrder, Tagged;
      ghost var q := pending;
      messages := [];
      FifoNothing(q);
      SizeOfNone(q);
      assert PortOrder(inputs[..0], q) == [] by { NoneInOrder(q); }
      for k := 0 to |inputs|
        invariant Shaped() && Fifo(q, pending, messages)
        invariant forall j :: k <= j < |inputs| ==> pending[inputs[j]] == q[inputs[j]]
        invariant |messages| == Least(target, Size(inputs[..k], q))
        invariant messages <= PortOrder(inputs[..k], q) && (|messages| < target ==> messages == PortOrder(inputs[..k], q))
      {
        OthersDiffer(inputs, k);
        var input := inputs[k];
        var room := Least(target - |messages|, |pending[input]|);
        ghost var before := pending;
        SizeNext(inputs, k, q);
        PortOrderNext(inputs, q, k);
        FifoOnPort(pending, input, room);
        var taken := Tagged(input, pending[input][..room]);
        pending := pending[input := pending[input][room..]];
        FifoChain(q, before, pending, messages, taken);
        BatchGrows(inputs, q, k, messages, taken, room);
        messages := messages + taken;
      }
      assert inputs[..|inputs|] == inputs;
    }

    /** How many messages the next batch takes: a full batch, or after the window whatever there is. */
    function BatchTarget(available: nat, oldest: Option<int>, now: int): (n: nat)
      ensures n <= available
      ensures policy.batchSize > 0 ==> n <= policy.batchSize
    {
      if policy.batchSize > 0 && available >= policy.batchSize then policy.batchSize
      else if policy.batchWindowMs > 0 && oldest.Some? && now - oldest.value >= policy.batchWindowMs * MILLISECOND then
        if policy.batchSize > 0 then Least(available, policy.batchSize) else available
      else 0
    }

    /** A front message has waited for the whole window. */
    ghost predicate WindowPassed(q: Queues, now: int)
      requires forall p :: p in inputs ==> p in q
    {
      policy.batchWindowMs > 0 && exists p :: p in inputs && q[p] != [] && now - q[p][0].receivedAt >= policy.batchWindowMs * MILLISECOND
    }

    /** A full batch goes at once, a partial one exactly when the window has passed, with all there is; messages go
        input by input, oldest first. */
    ghost predicate BatchRight(q: Queues, out: seq<Log>, now: int)
      requires forall p :: p in inputs ==> p in q
    {
      if policy.batchSize > 0 && |PortOrder(inputs, q)| >= policy.batchSize then out == [PortOrder(inputs, q)[..policy.batchSize]]
      else if WindowPassed(q, now) then out == [PortOrder(inputs, q)]
      else out == []
    }

    /** One invocation with a full batch, or with a partial one when its oldest message has waited for the
        whole window. */
    method CollectBatch(now: int) returns (out: seq<Log>)
      requires Shaped()
      modifies `pending
      ensures Shaped() && Fifo(old(pending), pending, Flatten(out)) && |out| <= 1
      ensures out != [] ==> out[0] != [] && (policy.batchSize > 0 ==> |out[0]| <= policy.batchSize)
      ensures policy.batchSize > 0 && Size(inputs, old(pending)) >= policy.batchSize ==>
        out != [] && |out[0]| == policy.batchSize
      ensures out == [] ==> pending == old(pending)
      ensures BatchRight(old(pending), out, now)
    {
      hide Fifo, Distinct, Size, Flatten, PortOrder;
      var available := Size(inputs, pending);
      OrderSize(inputs, pending);
      var oldest := OldestFront();
      var target := BatchTarget(available, oldest, now);
      forall p | p in inputs && pending[p] != [] ensures available > 0 {
        SizePositive(inputs, pending, p);
      }
      if target == 0 {
        FifoNothing(pending);
        FlattenEmpty();
        return [];
      }
      ghost var order := PortOrder(inputs, pending);
      var messages := TakeBatch(target);
      assert messages == order[..target] && order[..|order|] == order;
      FlattenOne(messages);
      out := [messages];
    }

    predicate RateLimited(now: int)
      reads this
    {
      policy.minIntervalMs > 0 && lastInvoked.Some? && now - lastInvoked.value < policy.minIntervalMs * MILLISECOND
    }

    /** The last emission is less than the minimum interval ago. */
    ghost predicate TooSoon(now: int)
      reads this
    {
      policy.minIntervalMs > 0 && emissions != [] && now - emissions[|emissions| - 1] < policy.minIntervalMs * 1_000_000
    }

    lemma LimitedIff(now: int)
      requires Valid()
      ensures RateLimited(now) <==> TooSoon(now)
    {
    }

    /** What a policy may drop: what cannot be matched, late or unstamped messages, each under its own kind; nothing
        under any other. */
    ghost predicate MayDrop(log: Log, marks: Watermarks) {
      if policy.kind == "time_sync" then policy.syncSlopMs > 0 || log == []
      else if policy.kind == "watermark" then AllLate(log, marks, policy.watermarkLatenessMs * MILLISECOND)
      else if policy.kind == "condition" && policy.condition == "event_timestamp_present" then Unstamped(log)
      else log == []
    }

    /** What leaves the queues: from their fronts, in order, only what is dropped and what is emitted; under the
        watermark policy, what is left after the late messages are gone. */
    ghost predicate Removed(q: Queues, after: Queues, marks: Watermarks, marks': Watermarks, log: Log, out: seq<Log>)
      requires forall p :: p in ports <==> p in inputs
      requires forall p :: p in ports ==> p in q
    {
      && MayDrop(log, marks') && Balanced(q, after, log + Flatten(out))
      && (policy.kind == "time_sync" ==> SyncRun(inputs, q, after, log, out, policy.syncSlopMs * MILLISECOND))
      && (policy.kind == "condition" && policy.condition == "event_timestamp_present" ==> StampRun(inputs, q, after, log, out))
      && if policy.kind == "watermark" then
           Fifo(ScanPorts(ports, q, marks, policy.watermarkLatenessMs * MILLISECOND).0, after, Flatten(out))
         else Fifo(q, after, log + Flatten(out))
    }

    /** What the component's policy makes of the pending messages. */
    ghost predicate Chosen(q: Queues, after: Queues, marks: Watermarks, out: seq<Log>, now: int, domain: Domain)
      requires q.Keys == after.Keys && (forall p :: p in inputs ==> p in q) && (forall p :: p in ports ==> p in q)
    {
      if policy.kind == "all_inputs" then out == FrontGroup(inputs, q)
      else if policy.kind == "time_sync" then SyncChosen(q, after, out, domain)
      else if policy.kind == "batch" then BatchRight(q, out, now)
      else if policy.kind == "watermark" then
        Singles(out) && Flatten(out) == Served(ports, ScanPorts(ports, q, marks, policy.watermarkLatenessMs * MILLISECOND).0,
          policy.minIntervalMs > 0)
      else if policy.kind == "condition" then ConditionRight(q, after, out)
      else if policy.kind == "debounce" || policy.coalesce then out == Coalesced(ports, q)
      else Singles(out) && Flatten(out) == Served(ports, q, policy.minIntervalMs > 0)
    }

    ghost predicate SyncChosen(q: Queues, after: Queues, out: seq<Log>, domain: Domain)
      requires q.Keys == after.Keys && forall p :: p in inputs ==> p in q
    {
      exists skip: Choice :: Synchronised(inputs, q, after, out, skip) &&
        (inputs != [] && policy.syncSlopMs > 0 && Orderly(inputs, q, domain) ==>
          SyncOptimal(inputs, q, domain, policy.syncSlopMs * MILLISECOND, out, skip))
    }

    /** What a collection adds to the counts: drops under their own name, batches, and conditions that did not hold. */
    ghost function Counted(before: Stats, drops: nat, out: seq<Log>): Stats {
      if policy.kind == "time_sync" then before.(timeSyncDrops := before.timeSyncDrops + drops)
      else if policy.kind == "watermark" then before.(lateDrops := before.lateDrops + drops)
      else if policy.kind == "batch" then before.(batchFlushes := before.batchFlushes + if out == [] then 0 else 1)
      else if policy.kind == "condition" then
        before.(pendingDrops := before.pendingDrops + drops, conditionSuppressed := before.conditionSuppressed + if out == [] then 1 else 0)
      else before
    }

    /** Runs the policy of the component on what is pending. */
    method Dispatch(now: int, ghost domain: Domain) returns (out: seq<Log>, ghost log: Log)
      requires Shaped() && ((policy.kind == "debounce" || policy.coalesce) ==> forall p :: p in inputs ==> |pending[p]| <= 1)
      modifies `pending, `watermarks, `stats
      ensures Shaped() && Balanced(old(pending), pending, log + Flatten(out))
      ensures Drops(stats) == Drops(old(stats)) + |log| && stats == Counted(old(stats), |log|, out)
      ensures policy.minIntervalMs > 0 ==> |out| <= 1
      ensures Chosen(old(pending), pending, old(watermarks), out, now, domain)
      ensures Removed(old(pending), pending, old(watermarks), watermarks, log, out)
    {
      hide Distinct, Balanced, Flatten, Fifo, Served, ScanPorts, PortOrder, Synchronised, SyncOptimal, BatchRight,
        ConditionRight, Orderly, Singles, Coalesced, Unstamped, AllLate, SyncRun, StampRun;
      log := [];
      if policy.kind == "all_inputs" {
        out := CollectAllInputs();
      } else if policy.kind == "time_sync" {
        var drops;
        ghost var skip;
        out, drops, log, skip := CollectTimeSync(domain);
        assert SyncChosen(old(pending), pending, out, domain);
        stats := stats.(timeSyncDrops := stats.timeSyncDrops + drops);
      } else if policy.kind == "batch" {
        out := CollectBatch(now);
        if out != [] {
          stats := stats.(batchFlushes := stats.batchFlushes + 1);
        }
      } else if policy.kind == "watermark" {
        var drops;
        out, drops, log := CollectWatermark();
        stats := stats.(lateDrops := stats.lateDrops + drops);
        return;
      } else if policy.kind == "condition" {
        var drops, suppressed;
        out, drops, suppressed, log := CollectCondition();
        stats := stats.(pendingDrops := stats.pendingDrops + drops);
        if suppressed {
          stats := stats.(conditionSuppressed := stats.conditionSuppressed + 1);
        }
      } else if policy.kind == "debounce" || policy.coalesce {
        out := CollectCoalesced();
      } else {
        out := CollectAnyInput();
      }
      assert [] + Flatten(out) == Flatten(out);
      FifoIsBalanced(old(pending), pending, log + Flatten(out));
    }

    /** What is left of a port after new arrivals, timeouts and bounds. */
    function TakenIn(q: Queues, arrivals: Queues, now: int, p: Id): seq<Message>
      requires p in q
    {
      var all := Received(q, arrivals)[p];
      Newest(if policy.maxLatencyMs > 0 then Split(all, now, policy.maxLatencyMs).0 else all, Limit(p))
    }

    /** One answer of the engine: nothing while the rate limit holds, and otherwise what the policy makes of the
        messages taken in. */
    ghost predicate Answered(before: Queues, arrivals: Queues, after: Queues, marks: Watermarks, marks': Watermarks, limited: bool,
                             out: seq<Log>, now: int, domain: Domain)
      requires before.Keys == after.Keys == Elements(inputs) && forall p :: p in ports <==> p in inputs
    {
      exists q: Queues, log: Log :: TookIn(before, arrivals, q, now) && AnsweredFrom(q, after, marks, marks', limited, log, out, now, domain)
    }

    ghost predicate AnsweredFrom(q: Queues, after: Queues, marks: Watermarks, marks': Watermarks, limited: bool, log: Log,
                                 out: seq<Log>, now: int, domain: Domain)
      requires q.Keys == after.Keys == Elements(inputs) && forall p :: p in ports <==> p in inputs
    {
      if limited then out == [] && log == [] && after == q && marks' == marks
      else Chosen(q, after, marks, out, now, domain) && Removed(q, after, marks, marks', log, out)
    }

    ghost predicate TookIn(before: Queues, arrivals: Queues, q: Queues, now: int)
      requires before.Keys == Elements(inputs)
    {
      q.Keys == before.Keys && forall p :: p in inputs ==> q[p] == TakenIn(before, arrivals, now, p)
    }

    /** Takes in what the channels delivered and drops what is too old or too much. */
    method Intake(now: int, arrivals: Queues)
      requires Valid()
      modifies `pending, `stats, `drained, `dropped
      ensures Valid() && drained == Received(old(drained), arrivals)
      ensures old(dropped) <= dropped && |dropped| == |old(dropped)| + Drops(stats)
      ensures (policy.kind == "debounce" || policy.coalesce) ==> forall p :: p in inputs ==> |pending[p]| <= 1
      ensures TookIn(old(pending), arrivals, pending, now)
      ensures stats == NO_STATS.(timeoutDrops := stats.timeoutDrops, pendingDrops := stats.pendingDrops)
    {
      hide Distinct, Balanced, Flatten, Fifo, Ledger, Received, Newest, Split;
      stats := NO_STATS;
      LedgerReceive(drained, pending, emitted, dropped, arrivals);
      DrainInputs(arrivals);
      drained := Received(drained, arrivals);
      ghost var q := pending;
      var timeouts, late := PruneTimedOut(now);
      LedgerDrop(drained, q, pending, emitted, dropped, late);
      dropped := dropped + late;
      q := pending;
      var trimmed, excess := EnforceBounds();
      FifoIsBalanced(q, pending, excess);
      LedgerDrop(drained, q, pending, emitted, dropped, excess);
      BoundedWhenCoalescing(inputs, q, pending, this);
      dropped := dropped + excess;
      stats := stats.(timeoutDrops := timeouts, pendingDrops := trimmed);
    }

    /** One call of the engine for a component that listens to messages. */
    method CollectMessages(now: int, arrivals: Queues, ghost domain: Domain) returns (out: seq<Log>)
      requires Valid()
      modifies this
      ensures Valid()
      ensures drained == Received(old(drained), arrivals) && emitted == old(emitted) + Flatten(out)
      ensures old(dropped) <= dropped && |dropped| == |old(dropped)| + Drops(stats)
      ensures emissions == old(emissions) + if out == [] then [] else [now]
      ensures stats.rateLimited == if old(TooSoon(now)) then 1 else 0
      ensures policy.minIntervalMs > 0 ==> |out| <= 1
      ensures Answered(old(pending), arrivals, pending, old(watermarks), watermarks, old(TooSoon(now)), out, now, domain)
    {
      hide Distinct, Sorted, Flatten, Ledger, Received, TookIn, AnsweredFrom, Spaced;
      LimitedIff(now);
      Intake(now, arrivals);
      if RateLimited(now) {
        stats := stats.(rateLimited := 1);
        FlattenEmpty();
        assert AnsweredFrom(pending, pending, watermarks, watermarks, true, [], [], now, domain) by { NothingAnswered(now, domain); }
        assert emitted + [] == emitted && emissions + [] == emissions;
        return [];
      }
      ghost var log;
      out, log := Fire(now, domain);
    }

    lemma NothingAnswered(now: int, domain: Domain)
      requires Shaped()
      ensures AnsweredFrom(pending, pending, watermarks, watermarks, true, [], [], now, domain)
    {
    }

    /** Emits what the policy makes of the pending messages, and notes when. */
    method Fire(now: int, ghost domain: Domain) returns (out: seq<Log>, ghost log: Log)
      requires Valid() && !RateLimited(now)
      requires (policy.kind == "debounce" || policy.coalesce) ==> forall p :: p in inputs ==> |pending[p]| <= 1
      modifies this
      ensures Valid() && drained == old(drained) && emitted == old(emitted) + Flatten(out)
      ensures dropped == old(dropped) + log && Drops(stats) == Drops(old(stats)) + |log| && stats == Counted(old(stats), |log|, out)
      ensures emissions == old(emissions) + if out == [] then [] else [now]
      ensures policy.minIntervalMs > 0 ==> |out| <= 1
      ensures AnsweredFrom(old(pending), pending, old(watermarks), watermarks, false, log, out, now, domain)
    {
      hide Distinct, Sorted, Balanced, Flatten, Fifo, Ledger, Chosen, Removed;
      ghost var q := pending;
      out, log := Dispatch(now, domain);
      LedgerStep(drained, q, pending, emitted, dropped, log, Flatten(out));
      dropped, emitted := dropped + log, emitted + Flatten(out);
      if out != [] {
        lastInvoked := Some(now);
        emissions := emissions + [now];
      } else {
        assert emissions + [] == emissions;
      }
    }

    /** The invocations that are due for the component now. */
    method CollectReady(now: int, arrivals: Queues, ghost domain: Domain) returns (out: seq<Invocation>)
      requires Valid()
      modifies this
      ensures Valid()
      ensures hasTimer ==> out == [OnTick] && unchanged(this)
      ensures !hasTimer && !hasMessages ==> out == [Manual] && unchanged(this)
      ensures !hasTimer && hasMessages ==>
        drained == Received(old(drained), arrivals) && |dropped| == |old(dropped)| + Drops(stats)
      ensures !hasTimer && hasMessages ==> exists groups: seq<Log> ::
        |groups| == |out| && (forall i :: 0 <= i < |out| ==> out[i] == OnMessages(groups[i])) &&
        emitted == old(emitted) + Flatten(groups) &&
        Answered(old(pending), arrivals, pending, old(watermarks), watermarks, old(TooSoon(now)), groups, now, domain)
      ensures !hasTimer && hasMessages ==> emissions == old(emissions) + if out == [] then [] else [now]
      ensures !hasTimer && hasMessages && policy.minIntervalMs > 0 ==> |out| <= 1
    {
      hide Distinct, Flatten, Ledger, Received, Answered;
      if hasTimer {
        return [OnTick];
      }
      if !hasMessages {
        return [Manual];
      }
      var groups := CollectMessages(now, arrivals, domain);
      out := seq(|groups|, i requires 0 <= i < |groups| => OnMessages(groups[i]));
      assert |groups| == |out| && (forall i :: 0 <= i < |out| ==> out[i] == OnMessages(groups[i])) &&
        emitted == old(emitted) + Flatten(groups) &&
        Answered(old(pending), arrivals, pending, old(watermarks), watermarks, old(TooSoon(now)), groups, now, domain);
    }
  }

  ghost predicate Unstamped(log: Log) {
    forall e :: e in log ==> e.1.stamp.None?
  }

  lemma NoneUnstamped()
    ensures Unstamped([])
  {
  }

  lemma NoPortsScanned(q: Queues, marks: Watermarks, latenessNs: nat)
    ensures ScanPorts([], q, marks, latenessNs) == (q, marks)
  {
  }

  lemma ScanPortsNext(ports: seq<Id>, q: Queues, marks: Watermarks, latenessNs: nat, k: nat)
    requires k < |ports| && forall p :: p in ports ==> p in q
    ensures var (before, m) := ScanPorts(ports[..k], q, marks, latenessNs);
      var r := Scanned(before[ports[k]], m, latenessNs);
      ScanPorts(ports[..k + 1], q, marks, latenessNs) == (before[ports[k] := r.kept], r.marks)
  {
    assert ports[..k + 1][..k] == ports[..k] && ports[..k + 1][k] == ports[k];
  }

  lemma {:induction false} SizePositive(inputs: seq<Id>, q: Queues, p: Id)
    requires p in inputs && p in q && q[p] != []
    ensures Size(inputs, q) > 0
  {
    var last := inputs[|inputs| - 1];
    if last != p {
      assert inputs == inputs[..|inputs| - 1] + [last];
      SizePositive(inputs[..|inputs| - 1], q, p);
    }
  }

  /** The first k ports have been emptied in order; the others are untouched. */
  ghost predicate ServedUpTo(ports: seq<Id>, q: Queues, now: Queues, k: nat, out: seq<Log>)
    requires k <= |ports| && forall p :: p in ports ==> p in q && p in now
  {
    && Fifo(q, now, Flatten(out)) && Singles(out) && Flatten(out) == PortOrder(ports[..k], q)
    && (forall j :: k <= j < |ports| ==> now[ports[j]] == q[ports[j]])
    && (forall j :: 0 <= j < k ==> now[ports[j]] == [])
  }

  lemma ServedNothing(ports: seq<Id>, q: Queues)
    requires forall p :: p in ports ==> p in q
    ensures ServedUpTo(ports, q, q, 0, [])
  {
    hide Fifo, Flatten, PortOrder;
    FifoNothing(q);
    FlattenEmpty();
    NoPorts(q);
    assert ports[..0] == [];
  }

  lemma PortUntouched(ports: seq<Id>, q: Queues, now: Queues, k: nat, out: seq<Log>)
    requires (forall p :: p in ports ==> p in q && p in now) && k < |ports| && ServedUpTo(ports, q, now, k, out)
    ensures now[ports[k]] == q[ports[k]]
  {
  }

  /** One more port, emptied or served its first message. */
  lemma ServedStep(ports: seq<Id>, q: Queues, before: Queues, after: Queues, k: nat, out: seq<Log>, more: seq<Log>)
    requires Distinct(ports) && k < |ports| && forall p :: p in ports ==> p in q && p in before && p in after
    requires ServedUpTo(ports, q, before, k, out) && Fifo(before, after, Flatten(more)) && Singles(more)
    requires after == before[ports[k] := after[ports[k]]]
    ensures Fifo(q, after, Flatten(out + more)) && Singles(out + more)
    ensures after[ports[k]] == [] && Flatten(more) == Tagged(ports[k], before[ports[k]]) ==> ServedUpTo(ports, q, after, k + 1, out + more)
    ensures out == [] && before[ports[k]] != [] && Flatten(more) == [(ports[k], before[ports[k]][0])] ==>
      Flatten(out + more) == Served(ports, q, true)
  {
    hide Fifo, Flatten, PortOrder, Tagged, Served, Singles;
    OthersDiffer(ports, k);
    FifoChain(q, before, after, Flatten(out), Flatten(more));
    FlattenConcat(out, more);
    SinglesConcat(out, more);
    PortOrderNext(ports, q, k);
    FlattenEmpty();
    FirstServed(ports, q, k);
  }

  lemma ServedWhole(ports: seq<Id>, q: Queues, now: Queues, out: seq<Log>)
    requires (forall p :: p in ports ==> p in q && p in now) && ServedUpTo(ports, q, now, |ports|, out)
    ensures Fifo(q, now, Flatten(out)) && Singles(out) && Flatten(out) == Served(ports, q, false)
    ensures out == [] ==> Flatten(out) == Served(ports, q, true)
    ensures forall p :: p in ports ==> now[p] == []
  {
    hide Fifo, Flatten, PortOrder, Singles, Served;
    assert ports[..|ports|] == ports;
    AllServed(ports, q);
    FlattenEmpty();
  }

  lemma FirstServed(ports: seq<Id>, q: Queues, k: nat)
    requires k < |ports| && (forall p :: p in ports ==> p in q)
    ensures PortOrder(ports[..k], q) == [] && q[ports[k]] != [] ==> Served(ports, q, true) == [(ports[k], q[ports[k]][0])]
  {
    if PortOrder(ports[..k], q) == [] && q[ports[k]] != [] {
      PortOrderNext(ports, q, k);
      assert Tagged(ports[k], q[ports[k]])[0] == (ports[k], q[ports[k]][0]);
      assert PortOrder(ports[..k + 1], q)[0] == PortOrder(ports, q)[0];
    }
  }

  lemma AllServed(ports: seq<Id>, q: Queues)
    requires forall p :: p in ports ==> p in q
    ensures Served(ports, q, false) == PortOrder(ports, q)
    ensures PortOrder(ports, q) == [] ==> Served(ports, q, true) == []
  {
  }

  lemma TaggedNone(port: Id)
    ensures Tagged(port, []) == []
  {
  }

  lemma TaggedHead(port: Id, s: seq<Message>)
    requires s != []
    ensures Tagged(port, s) == [(port, s[0])] + Tagged(port, s[1..])
  {
  }

  lemma NoPorts(q: Queues)
    ensures PortOrder([], q) == []
  {
  }

  /** What one more port adds, and that the first message served so far stays the first. */
  lemma PortOrderNext(ports: seq<Id>, q: Queues, k: nat)
    requires k < |ports| && forall p :: p in ports ==> p in q
    ensures PortOrder(ports[..k + 1], q) == PortOrder(ports[..k], q) + Tagged(ports[k], q[ports[k]])
    ensures PortOrder(ports[..k + 1], q) <= PortOrder(ports, q)
  {
    assert ports[..k + 1][..k] == ports[..k];
    PortOrderPrefix(ports, q, k + 1);
  }

  lemma LedgerDrop(drained: Queues, before: Queues, after: Queues, emitted: Log, dropped: Log, drops: Log)
    requires Ledger(drained, before, emitted, dropped) && Balanced(before, after, drops)
    ensures Ledger(drained, after, emitted, dropped + drops)
  {
    hide OnPort;
    assert drops + [] == drops && emitted + [] == emitted;
    LedgerStep(drained, before, after, emitted, dropped, drops, []);
  }

  lemma BoundedWhenCoalescing(inputs: seq<Id>, before: Queues, after: Queues, e: TriggerPolicyEngine)
    requires forall p :: p in inputs ==> p in before && p in after && after[p] == Newest(before[p], e.Limit(p))
    ensures (e.policy.kind == "debounce" || e.policy.coalesce) ==> forall p :: p in inputs ==> |after[p]| <= 1
  {
  }

  function Least(a: nat, b: nat): nat {
    if a < b then a else b
  }

  lemma SizeOfNone(q: Queues)
    ensures Size([], q) == 0
  {
  }

  lemma SizeNext(inputs: seq<Id>, k: nat, q: Queues)
    requires k < |inputs| && inputs[k] in q
    ensures Size(inputs[..k + 1], q) == Size(inputs[..k], q) + |q[inputs[k]]|
  {
    assert inputs[..k + 1][..k] == inputs[..k];
  }

  ghost predicate Risen(before: Watermarks, after: Watermarks) {
    forall d :: d in before ==> d in after && before[d] <= after[d]
  }

  ghost predicate AllLate(log: Log, marks: Watermarks, latenessNs: nat) {
    forall e :: e in log ==> Late(e.1, marks, latenessNs)
  }

  lemma PortsCovered(inputs: seq<Id>, ports: seq<Id>, q: Queues, marks: Watermarks)
    requires (forall p :: p in inputs ==> p in ports) && CoversPorts(marks, q, ports)
    ensures forall p :: p in inputs ==> p in q && CoversAll(marks, q[p])
  {
    hide CoversAll;
  }

  lemma NothingLate(marks: Watermarks, latenessNs: nat, q: Queues)
    ensures AllLate([], marks, latenessNs) && Risen(marks, marks) && CoversPorts(marks, q, [])
  {
  }

  lemma RisenLate(start: Watermarks, log: Log, more: Log, marks: Watermarks, later: Watermarks, latenessNs: nat)
    requires Risen(start, marks) && Risen(marks, later) && AllLate(log, marks, latenessNs) && AllLate(more, later, latenessNs)
    ensures Risen(start, later) && AllLate(log + more, later, latenessNs)
  {
  }

  /** No timestamp of the messages lies above its domain's watermark. */
  ghost predicate CoversAll(marks: Watermarks, s: seq<Message>) {
    forall m :: m in s ==> Covers(marks, m)
  }

  ghost predicate CoversPorts(marks: Watermarks, q: Queues, ports: seq<Id>) {
    forall p :: p in ports ==> p in q && CoversAll(marks, q[p])
  }

  lemma CoversRisenAll(marks: Watermarks, later: Watermarks, q: Queues, ports: seq<Id>)
    requires CoversPorts(marks, q, ports) && Risen(marks, later)
    ensures CoversPorts(later, q, ports)
  {
    forall p, m | p in ports && m in q[p] ensures Covers(later, m) {
      assert Covers(marks, m);
    }
  }

  lemma CoversOneMore(marks: Watermarks, q: Queues, ports: seq<Id>, k: nat)
    requires k < |ports| && CoversPorts(marks, q, ports[..k]) && ports[k] in q && CoversAll(marks, q[ports[k]])
    ensures CoversPorts(marks, q, ports[..k + 1])
  {
    hide CoversAll;
    assert ports[..k + 1] == ports[..k] + [ports[k]];
  }

  /** Dropping the oldest front of a group that is too far apart. */
  lemma DropOldest(inputs: seq<Id>, q: Queues, domain: Domain, slop: int, skip: Choice, rest: Queues, log: Log, low: Id, high: Id)
    requires Skippable(inputs, q, domain, slop, skip) && Dropped(inputs, q, skip, rest) && Fifo(q, rest, log)
    requires Distinct(inputs) && low in inputs && high in inputs && rest[low] != [] && rest[high] != []
    requires Ns(rest[high][0]) - Ns(rest[low][0]) > slop
    ensures low in skip && low in rest
    ensures var skip', rest' := skip[low := skip[low] + 1], rest[low := rest[low][1..]];
      && Skippable(inputs, q, domain, slop, skip') && Dropped(inputs, q, skip', rest')
      && Fifo(q, rest', log + [(low, rest[low][0])]) && Size(inputs, rest') < Size(inputs, rest)
  {
    hide Skippable, Fifo, Size, Distinct;
    OldestFrontSkippable(inputs, q, domain, slop, skip, rest, low, high);
    DropOneMore(inputs, q, skip, rest, low);
    FifoHead(rest, low);
    SizeDrop(inputs, rest, low, rest[low][1..]);
    FifoChain(q, rest, rest[low := rest[low][1..]], log, [(low, rest[low][0])]);
  }

  lemma ComparableFilled(messages: Log)
    ensures Comparable(messages) ==> messages != []
  {
  }

  /** The test of the fronts' timestamps says whether all have one, in one domain. */
  lemma ComparableIff(inputs: seq<Id>, q: Queues)
    requires (forall p :: p in inputs ==> p in q) && AllFilled(inputs, q)
    ensures Comparable(Fronts(inputs, q)) <==> OneDomain(inputs, q)
  {
    var m := Fronts(inputs, q);
    if OneDomain(inputs, q) {
      assert m[0].1 == q[inputs[0]][0] && inputs[0] in inputs;
      forall e | e in m ensures e.1.stamp.Some? && e.1.stamp.value.domain == m[0].1.stamp.value.domain {
        assert e.0 in inputs && e.1 == q[e.0][0];
      }
    }
    if Comparable(m) {
      forall a | a in inputs ensures q[a][0].stamp.Some? && q[a][0].stamp.value.domain == m[0].1.stamp.value.domain {
        var i :| 0 <= i < |inputs| && inputs[i] == a;
        assert m[i] == (a, q[a][0]);
      }
    }
  }

  lemma OldestFirst(inputs: seq<Id>, q: Queues, low: nat, high: nat, slop: int)
    requires (forall p :: p in inputs ==> p in q) && AllFilled(inputs, q) && low < |inputs| && high < |inputs|
    requires AreExtremes(Fronts(inputs, q), low, high)
    requires forall k :: 0 <= k < low ==> Ns(Fronts(inputs, q)[low].1) < Ns(Fronts(inputs, q)[k].1)
    ensures IsOldest(inputs, q, inputs[low])
    ensures FrontsClose(inputs, q, slop) ==> Ns(q[inputs[high]][0]) - Ns(q[inputs[low]][0]) <= slop
  {
    var m := Fronts(inputs, q);
    forall j | 0 <= j < |inputs|
      ensures Ns(q[inputs[low]][0]) <= Ns(q[inputs[j]][0]) && (j < low ==> Ns(q[inputs[low]][0]) < Ns(q[inputs[j]][0]))
    {
      assert m[j].1 == q[inputs[j]][0] && m[low].1 == q[inputs[low]][0];
    }
    assert inputs[low] in inputs && inputs[high] in inputs;
  }

  lemma FlattenEmpty()
    ensures Flatten([]) == []
  {
  }

  lemma FlattenOne(messages: Log)
    ensures Flatten([messages]) == messages
  {
    FlattenPush([], messages);
    assert [] + [messages] == [messages] && [] + messages == messages;
  }

  lemma FrontsComparable(inputs: seq<Id>, q: Queues, domain: Domain, skip: Choice, rest: Queues)
    requires Dropped(inputs, q, skip, rest) && AllFilled(inputs, rest)
    ensures inputs != [] && Orderly(inputs, q, domain) ==> Comparable(Fronts(inputs, rest))
  {
    if inputs != [] && Orderly(inputs, q, domain) {
      forall i | 0 <= i < |inputs|
        ensures rest[inputs[i]][0].stamp.Some? && rest[inputs[i]][0].stamp.value.domain == domain
      {
        assert rest[inputs[i]][0] == q[inputs[i]][skip[inputs[i]]];
      }
    }
  }

  lemma FrontsWithin(inputs: seq<Id>, q: Queues, low: nat, high: nat, slop: int)
    requires (forall p :: p in inputs ==> p in q) && AllFilled(inputs, q) && low < |inputs| && high < |inputs|
    requires AreExtremes(Fronts(inputs, q), low, high) && Ns(q[inputs[high]][0]) - Ns(q[inputs[low]][0]) <= slop
    ensures FrontsClose(inputs, q, slop)
    ensures forall a, b :: a in inputs && b in inputs ==> Ns(q[a][0]) - Ns(q[b][0]) <= slop
  {
    var m := Fronts(inputs, q);
    forall a | a in inputs ensures Ns(m[low].1) <= Ns(q[a][0]) <= Ns(m[high].1) {
      var i :| 0 <= i < |inputs| && inputs[i] == a;
      assert m[i].1 == q[a][0];
    }
  }

  lemma OptimalEmit(inputs: seq<Id>, q: Queues, domain: Domain, slopNs: int, skip: Choice, out: seq<Log>)
    requires Skippable(inputs, q, domain, slopNs, skip) && Matching(inputs, q, skip, slopNs) && out != []
    ensures SyncOptimal(inputs, q, domain, slopNs, out, skip)
  {
    hide Skippable, Matching;
  }

  lemma SynchronisedFronts(inputs: seq<Id>, q: Queues, rest: Queues, skip: Choice)
    requires Distinct(inputs) && Dropped(inputs, q, skip, rest) && AllFilled(inputs, rest)
    ensures Synchronised(inputs, q, Consumed(inputs, rest), [Fronts(inputs, rest)], skip)
  {
    forall i | 0 <= i < |inputs| ensures rest[inputs[i]] == q[inputs[i]][skip[inputs[i]]..] && inputs[i] in inputs {
    }
  }

  lemma RanOut(inputs: seq<Id>, q: Queues, domain: Domain, slopNs: int, skip: Choice, rest: Queues)
    requires Dropped(inputs, q, skip, rest) && Skippable(inputs, q, domain, slopNs, skip) && !AllFilled(inputs, rest)
    ensures Synchronised(inputs, q, rest, [], skip)
    ensures Orderly(inputs, q, domain) ==> SyncOptimal(inputs, q, domain, slopNs, [], skip)
  {
    hide Skippable, Orderly;
    var empty :| empty in inputs && rest[empty] == [];
    if Orderly(inputs, q, domain) {
      ExhaustedHasNoMatch(inputs, q, domain, slopNs, skip, rest, empty);
    }
  }

  lemma OthersDiffer(s: seq<Id>, k: nat)
    requires Distinct(s) && k < |s|
    ensures forall j :: 0 <= j < |s| && j != k ==> s[j] != s[k]
  {
  }

  /** The last n elements. */
  function Newest(s: seq<Message>, n: nat): seq<Message> {
    if |s| > n then s[|s| - n..] else s
  }
}
