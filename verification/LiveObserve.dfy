/** The lock-free observation stream: one producer thread publishes, one consumer thread pops and asks for drop
    summaries. Every load and store of a shared cell is a step of its own, copying a slot takes a beginning and
    an end, and the steps of the two threads may interleave in any order. */
module LiveObserve {

  datatype Event = Event(content: int, localSeq: nat)

  /** A slot is torn while an event is being copied into it. */
  datatype Slot = Torn | Holds(event: Event)

  datatype Producer =
    | Resting
    | Sequenced(event: Event)
    | HasWriteIndex(event: Event, at: nat)
    | MayWrite(event: Event, at: nat)
    | Writing(event: Event, at: nat)
    | Wrote(event: Event, at: nat)
    | FoundFull(event: Event)
    | CountedDrop(event: Event)

  datatype Consumer =
    | Waiting
    | HasReadIndex(at: nat)
    | MayRead(at: nat)
    | Reading(at: nat)
    | Copied(event: Event, at: nat)
    | TookDrops(count: nat)

  /** Which thread moves next; a resting producer publishes the content, a waiting consumer pops or summarises. */
  datatype Turn = Produce(content: int) | Consume(summarise: bool)

  predicate InFlight(p: Producer) {
    !p.Resting? && !p.CountedDrop?
  }

  lemma ModApart(a: nat, b: nat, n: nat)
    requires b < a < b + n
    ensures a % n != b % n
  {
    var q, r, k := b / n, b % n, a - b;
    if r + k < n {
      ModUnique(a, n, q, r + k);
    } else {
      assert n * (q + 1) == n * q + n;
      ModUnique(a, n, q + 1, r + k - n);
    }
  }

  lemma MulAtLeast(n: nat, d: int)
    ensures d >= 1 ==> n * d >= n
  {
  }

  lemma NextMod(a: nat, n: nat)
    requires n > 0
    ensures (a + 1) % n == if a % n + 1 == n then 0 else a % n + 1
  {
    var q, r := a / n, a % n;
    assert a == n * q + r;
    if r + 1 == n {
      assert a + 1 == n * (q + 1);
      ModUnique(a + 1, n, q + 1, 0);
    } else {
      ModUnique(a + 1, n, q, r + 1);
    }
  }

  lemma ModUnique(a: nat, n: nat, q: nat, r: nat)
    requires n > 0 && r < n && a == n * q + r
    ensures a % n == r
  {
    var q', r' := a / n, a % n;
    assert n * (q - q') == r' - r;
    MulAtLeast(n, q - q');
    MulAtLeast(n, q' - q);
  }

  /** The next write position meets the read position exactly when the buffer is full. */
  lemma FullIff(accepted: nat, popped: nat, capacity: nat)
    requires popped <= accepted <= popped + capacity
    ensures (accepted + 1) % (capacity + 1) == popped % (capacity + 1) <==> accepted == popped + capacity
  {
    var n := capacity + 1;
    assert n * (popped / n + 1) == n * (popped / n) + n;
    ModUnique(popped + n, n, popped / n + 1, popped % n);
    if accepted < popped + capacity {
      ModApart(popped + n, accepted + 1, n);
    }
  }

  class LiveEventStream {
    const capacity: nat
    const slots: array<Slot>
    var readIndex: nat
    var writeIndex: nat
    var droppedEvents: nat
    var pendingDrops: nat
    var localSeq: nat
    var producer: Producer
    var consumer: Consumer
    ghost var accepted: seq<Event>
    ghost var popped: seq<Event>
    ghost var summaries: seq<nat>

    /** The contents the buffer stands for: what was accepted and not yet popped, oldest first. */
    ghost function Queue(): seq<Event>
      requires |popped| <= |accepted|
      reads this
    {
      accepted[|popped|..]
    }

    ghost predicate Indexed()
      reads this
    {
      && slots.Length == (if capacity == 0 then 0 else capacity + 1)
      && |popped| <= |accepted| <= |popped| + capacity
      && popped == accepted[..|popped|]
      && (capacity > 0 ==> readIndex == |popped| % (capacity + 1) && writeIndex == |accepted| % (capacity + 1))
    }

    /** The slot of the k-th accepted event. */
    ghost function SlotOf(k: nat): (n: nat)
      ensures n <= capacity
    {
      k % (capacity + 1)
    }

    /** Every queued event sits whole in its slot. */
    ghost predicate Stored()
      requires Indexed()
      reads this, slots
    {
      forall k :: |popped| <= k < |accepted| ==> slots[SlotOf(k)] == Holds(accepted[k])
    }

    ghost predicate ProducerRight()
      requires Indexed()
      reads this, slots
    {
      match producer
      case HasWriteIndex(_, at) => capacity > 0 && at == writeIndex
      case MayWrite(_, at) => capacity > 0 && at == writeIndex && |accepted| < |popped| + capacity
      case Writing(_, at) => capacity > 0 && at == writeIndex && |accepted| < |popped| + capacity
      case Wrote(event, at) =>
        capacity > 0 && at == writeIndex && |accepted| < |popped| + capacity && slots[at] == Holds(event)
      case _ => true
    }

    ghost predicate ConsumerRight()
      requires Indexed()
      reads this
    {
      match consumer
      case HasReadIndex(at) => capacity > 0 && at == readIndex
      case MayRead(at) => capacity > 0 && at == readIndex && |popped| < |accepted|
      case Reading(at) => capacity > 0 && at == readIndex && |popped| < |accepted|
      case Copied(event, at) =>
        capacity > 0 && at == readIndex && |popped| < |accepted| && event == accepted[|popped|]
      case _ => true
    }

    /** Sequence numbers: each handed out once, to an accepted event, a dropped one, a summary, or the
        publication under way; and every counted drop is still to be reported, reported, or being so. */
    ghost predicate Counted()
      reads this
    {
      && localSeq == |accepted| + droppedEvents + |summaries| + (if InFlight(producer) then 1 else 0)
      && droppedEvents == pendingDrops + Sum(summaries) + (if consumer.TookDrops? then consumer.count else 0)
         + (if producer.CountedDrop? then 1 else 0)
      && (forall i, j :: 0 <= i < j < |accepted| ==> accepted[i].localSeq < accepted[j].localSeq)
      && (forall e :: e in accepted ==> 0 < e.localSeq <= localSeq)
      && (InFlight(producer) ==> 0 < producer.event.localSeq <= localSeq)
      && (InFlight(producer) ==> forall e :: e in accepted ==> e.localSeq < producer.event.localSeq)
    }

    ghost predicate Valid()
      reads this, slots
    {
      Indexed() && Stored() && ProducerRight() && ConsumerRight() && Counted()
    }

    constructor (capacity: nat)
      ensures Valid() && this.capacity == capacity && accepted == [] && popped == [] && summaries == []
    {
      this.capacity := capacity;
      slots := new Slot[if capacity == 0 then 0 else capacity + 1](_ => Torn);
      readIndex, writeIndex, droppedEvents, pendingDrops, localSeq := 0, 0, 0, 0, 0;
      producer, consumer := Resting, Waiting;
      accepted, popped, summaries := [], [], [];
    }

    function Increment(index: nat): nat {
      if index + 1 == slots.Length then 0 else index + 1
    }

    // ----- the producer's steps

    /** A publication takes the next sequence number. */
    method BeginPublish(content: int)
      requires Valid() && producer.Resting?
      modifies this
      ensures Valid() && popped == old(popped) && accepted == old(accepted) && summaries == old(summaries)
      ensures localSeq == old(localSeq) + 1 && producer == Sequenced(Event(content, localSeq))
    {
      localSeq := localSeq + 1;
      producer := Sequenced(Event(content, localSeq));
    }

    method LoadOwnWriteIndex()
      requires Valid() && producer.Sequenced?
      modifies `producer
      ensures Valid()
      ensures capacity == 0 ==> producer == FoundFull(old(producer).event)
      ensures capacity > 0 ==> producer == HasWriteIndex(old(producer).event, writeIndex)
    {
      producer := if capacity == 0 then FoundFull(producer.event) else HasWriteIndex(producer.event, writeIndex);
    }

    /** The push is refused exactly when the buffer is full at this very load. */
    method LoadReadIndex()
      requires Valid() && producer.HasWriteIndex?
      modifies `producer
      ensures Valid() && producer.event == old(producer).event
      ensures producer.FoundFull? <==> |Queue()| == capacity
      ensures producer.MayWrite? <==> |Queue()| < capacity
    {
      NextMod(|accepted|, capacity + 1);
      FullIff(|accepted|, |popped|, capacity);
      producer := if Increment(producer.at) == readIndex then FoundFull(producer.event)
                  else MayWrite(producer.event, producer.at);
    }

    method BeginWriteSlot()
      requires Valid() && producer.MayWrite?
      modifies `producer, slots
      ensures Valid() && producer == Writing(old(producer).event, old(producer).at) && slots[producer.at] == Torn
    {
      KeepOthers(producer.at);
      slots[producer.at] := Torn;
      producer := Writing(producer.event, producer.at);
    }

    method EndWriteSlot()
      requires Valid() && producer.Writing?
      modifies `producer, slots
      ensures Valid() && producer == Wrote(old(producer).event, old(producer).at)
    {
      KeepOthers(producer.at);
      slots[producer.at] := Holds(producer.event);
      producer := Wrote(producer.event, producer.at);
    }

    /** The event becomes visible to the consumer. */
    method StoreWriteIndex()
      requires Valid() && producer.Wrote?
      modifies this
      ensures Valid() && producer.Resting? && accepted == old(accepted) + [old(producer).event]
      ensures popped == old(popped) && summaries == old(summaries)
    {
      NextMod(|accepted|, capacity + 1);
      accepted := accepted + [producer.event];
      writeIndex := Increment(producer.at);
      producer := Resting;
    }

    method CountDrop()
      requires Valid() && producer.FoundFull?
      modifies this
      ensures Valid() && producer.CountedDrop? && droppedEvents == old(droppedEvents) + 1
      ensures accepted == old(accepted) && popped == old(popped) && summaries == old(summaries)
    {
      droppedEvents := droppedEvents + 1;
      producer := CountedDrop(producer.event);
    }

    method CountPendingDrop()
      requires Valid() && producer.CountedDrop?
      modifies this
      ensures Valid() && producer.Resting? && pendingDrops == old(pendingDrops) + 1
      ensures accepted == old(accepted) && popped == old(popped) && summaries == old(summaries)
    {
      pendingDrops := pendingDrops + 1;
      producer := Resting;
    }

    /** No slot that holds a queued event is the slot the producer owns. */
    lemma KeepOthers(at: nat)
      requires Indexed() && capacity > 0 && at == writeIndex && |accepted| < |popped| + capacity
      ensures forall k :: |popped| <= k < |accepted| ==> SlotOf(k) != at
    {
      forall k | |popped| <= k < |accepted| ensures SlotOf(k) != at {
        ModApart(|accepted|, k, capacity + 1);
      }
    }

    // ----- the consumer's steps

    method LoadOwnReadIndex()
      requires Valid() && consumer.Waiting?
      modifies `consumer
      ensures Valid() && consumer == if capacity == 0 then Waiting else HasReadIndex(readIndex)
    {
      if capacity > 0 {
        consumer := HasReadIndex(readIndex);
      }
    }

    /** The pop comes back empty exactly when the buffer is empty at this very load. */
    method LoadWriteIndex()
      requires Valid() && consumer.HasReadIndex?
      modifies `consumer
      ensures Valid()
      ensures consumer.Waiting? <==> Queue() == []
      ensures consumer.MayRead? <==> Queue() != []
    {
      if |popped| < |accepted| {
        ModApart(|accepted|, |popped|, capacity + 1);
      }
      consumer := if consumer.at == writeIndex then Waiting else MayRead(consumer.at);
    }

    method BeginReadSlot()
      requires Valid() && consumer.MayRead?
      modifies `consumer
      ensures Valid() && consumer == Reading(old(consumer).at)
    {
      consumer := Reading(consumer.at);
    }

    /** The copy yields the oldest queued event, whole. */
    method EndReadSlot()
      requires Valid() && consumer.Reading?
      modifies `consumer
      ensures Valid() && Queue() != [] && consumer == Copied(Queue()[0], old(consumer).at)
    {
      assert slots[SlotOf(|popped|)] == Holds(accepted[|popped|]);
      consumer := Copied(slots[consumer.at].event, consumer.at);
    }

    method StoreReadIndex() returns (event: Event)
      requires Valid() && consumer.Copied?
      modifies this
      ensures Valid() && consumer.Waiting? && old(Queue()) == [event] + Queue()
      ensures popped == old(popped) + [event] && accepted == old(accepted) && summaries == old(summaries)
    {
      NextMod(|popped|, capacity + 1);
      event := consumer.event;
      assert accepted[..|popped| + 1] == accepted[..|popped|] + [accepted[|popped|]];
      popped := popped + [event];
      readIndex := Increment(consumer.at);
      consumer := Waiting;
    }

    method TakePendingDrops()
      requires Valid() && consumer.Waiting?
      modifies this
      ensures Valid() && pendingDrops == 0
      ensures consumer == if old(pendingDrops) == 0 then Waiting else TookDrops(old(pendingDrops))
      ensures accepted == old(accepted) && popped == old(popped) && summaries == old(summaries)
    {
      if pendingDrops > 0 {
        consumer := TookDrops(pendingDrops);
        pendingDrops := 0;
      }
    }

    /** The summary takes a sequence number of its own and reports the drops taken. */
    method MakeSummary() returns (seqNumber: nat, count: nat)
      requires Valid() && consumer.TookDrops?
      modifies this
      ensures Valid() && consumer.Waiting? && seqNumber == old(localSeq) + 1 == localSeq && count == old(consumer).count
      ensures summaries == old(summaries) + [count] && accepted == old(accepted) && popped == old(popped)
    {
      localSeq := localSeq + 1;
      seqNumber, count := localSeq, consumer.count;
      SumPush(summaries, count);
      summaries := summaries + [count];
      consumer := Waiting;
    }

    // ----- all interleavings

    method ProducerStep(content: int)
      requires Valid()
      modifies this, slots
      ensures Valid() && popped == old(popped) && old(accepted) <= accepted && summaries == old(summaries)
    {
      match producer {
        case Resting => BeginPublish(content);
        case Sequenced(_) => LoadOwnWriteIndex();
        case HasWriteIndex(_, _) => LoadReadIndex();
        case MayWrite(_, _) => BeginWriteSlot();
        case Writing(_, _) => EndWriteSlot();
        case Wrote(_, _) => StoreWriteIndex();
        case FoundFull(_) => CountDrop();
        case CountedDrop(_) => CountPendingDrop();
      }
    }

    method ConsumerStep(summarise: bool) returns (out: seq<Event>)
      requires Valid()
      modifies this
      ensures Valid() && accepted == old(accepted) && old(summaries) <= summaries && popped == old(popped) + out
    {
      out := [];
      match consumer {
        case Waiting => if summarise { TakePendingDrops(); } else { LoadOwnReadIndex(); }
        case HasReadIndex(_) => LoadWriteIndex();
        case MayRead(_) => BeginReadSlot();
        case Reading(_) => EndReadSlot();
        case Copied(_, _) =>
          var event := StoreReadIndex();
          out := [event];
        case TookDrops(_) =>
          var number, count := MakeSummary();
      }
    }

    /** Whatever the schedule, the consumer receives the accepted events in order without gaps, the buffer
        never holds more than its capacity, and no sequence number and no drop goes unaccounted for. */
    method Run(schedule: seq<Turn>) returns (out: seq<Event>)
      requires Valid()
      modifies this, slots
      ensures Valid() && old(accepted) <= accepted
      ensures old(popped) + out == popped == accepted[..|popped|] && |Queue()| <= capacity
      ensures producer.Resting? ==> localSeq == |accepted| + droppedEvents + |summaries|
      ensures producer.Resting? && consumer.Waiting? ==> droppedEvents == pendingDrops + Sum(summaries)
    {
      out := [];
      for k := 0 to |schedule|
        invariant Valid() && old(accepted) <= accepted && old(popped) + out == popped
      {
        match schedule[k] {
          case Produce(content) => ProducerStep(content);
          case Consume(summarise) =>
            var more := ConsumerStep(summarise);
            out := out + more;
        }
      }
    }

    /** While both threads are inside a slot, it is never the same one. */
    lemma NeverSameSlot()
      requires Valid() && producer.Writing? && consumer.Reading?
      ensures producer.at != consumer.at
    {
      ModApart(|accepted|, |popped|, capacity + 1);
    }
  }

  function Sum(s: seq<nat>): nat {
    if s == [] then 0 else Sum(s[..|s| - 1]) + s[|s| - 1]
  }

  lemma SumPush(s: seq<nat>, n: nat)
    ensures Sum(s + [n]) == Sum(s) + n
  {
    assert (s + [n])[..|s|] == s;
  }
}
