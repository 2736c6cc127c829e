/** One channel of the bus: what publishing, reading and advancing do to it, as functions on its state. */
module Channels {
  import opened Ids
  import opened Messages

  datatype ChannelType = LatestOnly | EveryMessage | LatchedSnapshot | PreviousTick | Barrier

  datatype DropPolicy = Overwrite | DropOldest | DropNewest | BlockProducer | FailFast

  datatype CopyPolicy = Copy | SharedView | LoanedView | MoveOnly

  datatype Config = Config(id: Id, kind: ChannelType, capacity: nat, dropPolicy: DropPolicy, lifespan: int,
                           copyPolicy: CopyPolicy, multiReader: bool)
  {
    predicate LatestStyle() {
      kind == LatestOnly || kind == LatchedSnapshot || kind == PreviousTick
    }

    /** Whether a full queue turns publications away. */
    predicate Rejecting() {
      dropPolicy == DropNewest || dropPolicy == BlockProducer || dropPolicy == FailFast
    }

    predicate Expired(m: Message, now: int) {
      lifespan > 0 && now - m.publishedAt > lifespan
    }

    predicate Carries(p: Payload) {
      copyPolicy == Copy ==> p.text
    }
  }

  datatype Counts = Counts(published: nat, delivered: nat, dropped: nat, stale: nat, rejected: nat, overwritten: nat)

  datatype Channel = Channel(config: Config, next: nat, latest: Option<Message>, pending: Option<Message>,
                             queue: seq<Message>, latestSeen: map<Id, nat>, queueSeen: map<Id, nat>, depth: nat,
                             counts: Counts)

  const MAX_TRACKED_READERS: nat := 4096

  function Opened(config: Config): Channel {
    Channel(config, 1, None, None, [], map[], map[], 0, Counts(0, 0, 0, 0, 0, 0))
  }

  // Publishing.

  function NextMessage(s: Channel, p: Payload, now: int, stamp: Option<Stamp>): Message {
    Message(s.config.id, s.next, p, now, now, stamp)
  }

  /** Whether a publication would be turned away for lack of room. */
  predicate Full(s: Channel) {
    !s.config.LatestStyle() && |s.queue| >= s.config.capacity && s.config.Rejecting()
  }

  /** The queue after a message is added: its last `capacity` messages. */
  function Bounded(q: seq<Message>, capacity: nat): seq<Message> {
    if |q| > capacity then q[|q| - capacity..] else q
  }

  function Rejected(s: Channel): Channel {
    s.(next := s.next + 1,
       counts := s.counts.(rejected := s.counts.rejected + 1,
                           dropped := s.counts.dropped + if s.config.dropPolicy == BlockProducer then 0 else 1))
  }

  function Accepted(s: Channel, m: Message): Channel {
    var c := s.counts.(published := s.counts.published + 1);
    var s' := s.(next := s.next + 1);
    if s.config.kind == PreviousTick then
      s'.(pending := Some(m), depth := (if s.latest.Some? then 1 else 0) + 1,
          counts := c.(overwritten := c.overwritten + if s.pending.Some? then 1 else 0))
    else if s.config.LatestStyle() then
      s'.(latest := Some(m), queue := [], depth := 1,
          counts := c.(overwritten := c.overwritten + if s.config.kind == LatestOnly && s.depth > 0 then 1 else 0))
    else
      var q := Bounded(s.queue + [m], s.config.capacity);
      s'.(latest := Some(m), queue := q, depth := |q|,
          counts := c.(overwritten := c.overwritten + |s.queue| + 1 - |q|))
  }

  function Published(s: Channel, p: Payload, now: int, stamp: Option<Stamp>): Channel {
    if Full(s) then Rejected(s) else Accepted(s, NextMessage(s, p, now, stamp))
  }

  /** What a refusal in preflight does: it is only tallied. */
  function Tallied(s: Channel, dropped: nat): Channel {
    s.(counts := s.counts.(dropped := s.counts.dropped + dropped, rejected := s.counts.rejected + 1))
  }

  // Reading.

  /** The messages that have not expired, in order. */
  function Live(c: Config, q: seq<Message>, now: int): seq<Message> {
    if q == [] then []
    else
      var m := q[|q| - 1];
      var front := Live(c, q[..|q| - 1], now);
      if c.Expired(m, now) then front else front + [m]
  }

  /** The messages beyond a reader's cursor, in order. */
  function Beyond(q: seq<Message>, cursor: nat): seq<Message> {
    if q == [] then []
    else
      var m := q[|q| - 1];
      var front := Beyond(q[..|q| - 1], cursor);
      if m.sequence <= cursor then front else front + [m]
  }

  /** A batch limit of zero is no limit. */
  function Batch(q: seq<Message>, max: nat): seq<Message> {
    if max != 0 && |q| > max then q[..max] else q
  }

  function Cursor(seen: map<Id, nat>, reader: Id): nat {
    if reader in seen then seen[reader] else 0
  }

  function Wanted(c: Config, q: seq<Message>, cursor: nat, now: int): seq<Message> {
    if c.multiReader then Beyond(Live(c, q, now), cursor) else Live(c, q, now)
  }

  function Retained(c: Config, q: seq<Message>, cursor: nat, now: int, max: nat): seq<Message> {
    var wanted := Wanted(c, q, cursor, now);
    if c.multiReader then Live(c, q, now) else wanted[|Batch(wanted, max)|..]
  }

  /** What a read of a queue delivers. A barrier delivers nothing until it is full. */
  function QueueRead(s: Channel, reader: Id, now: int, max: nat): seq<Message> {
    if s.config.kind == Barrier && |s.queue| < s.config.capacity then []
    else Batch(Wanted(s.config, s.queue, Cursor(s.queueSeen, reader), now), max)
  }

  function Noted(seen: map<Id, nat>, reader: Id, out: seq<Message>): map<Id, nat> {
    if out == [] then seen else seen[reader := out[|out| - 1].sequence]
  }

  /** Cursors below every retained message say nothing that their absence does not. */
  function QueueCursorsKept(seen: map<Id, nat>, q: seq<Message>): map<Id, nat> {
    map r | r in seen && q != [] && seen[r] >= q[0].sequence :: seen[r]
  }

  function LatestCursorsKept(seen: map<Id, nat>, latest: nat): map<Id, nat> {
    map r | r in seen && seen[r] == latest :: seen[r]
  }

  /** The hard cap: the smallest reader names go first. */
  ghost function Capped(seen: map<Id, nat>): (r: map<Id, nat>)
    ensures |r| <= MAX_TRACKED_READERS
    ensures r.Keys <= seen.Keys && forall k :: k in r ==> r[k] == seen[k]
    ensures |seen| <= MAX_TRACKED_READERS ==> r == seen
    decreases |seen|
  {
    if |seen| <= MAX_TRACKED_READERS then seen
    else
      SmallestExists(seen.Keys);
      var k :| IsSmallest(seen.Keys, k);
      assert |seen.Keys| == |seen| && (seen - {k}).Keys == seen.Keys - {k} && |(seen - {k}).Keys| == |seen - {k}|;
      Capped(seen - {k})
  }

  ghost function Pruned(seen: map<Id, nat>, kept: map<Id, nat>): (r: map<Id, nat>)
  {
    if |seen| > MAX_TRACKED_READERS then Capped(kept) else seen
  }

  /** A read of a queue channel. Without pruning it is the reference that never forgets a cursor. */
  ghost function ReadQueue(s: Channel, reader: Id, now: int, max: nat, prune: bool): Channel {
    if s.config.kind == Barrier && |s.queue| < s.config.capacity then s
    else
      var out := QueueRead(s, reader, now, max);
      var cursor := Cursor(s.queueSeen, reader);
      var q := Retained(s.config, s.queue, cursor, now, max);
      var seen := if s.config.multiReader then Noted(s.queueSeen, reader, out) else s.queueSeen;
      var lost := |s.queue| - |Live(s.config, s.queue, now)|;
      LiveShrinks(s.config, s.queue, now);
      s.(queue := q, depth := |q|,
         queueSeen := if prune then Pruned(seen, QueueCursorsKept(seen, q)) else seen,
         counts := s.counts.(delivered := s.counts.delivered + |out|, stale := s.counts.stale + lost,
                             dropped := s.counts.dropped + lost))
  }

  function Forgotten(s: Channel): Channel {
    s.(latest := None, depth := 0, counts := s.counts.(stale := s.counts.stale + 1, dropped := s.counts.dropped + 1))
  }

  predicate LatestExpired(s: Channel, now: int) {
    s.latest.Some? && s.config.Expired(s.latest.value, now)
  }

  /** What a read of a latest-style channel delivers. */
  function LatestRead(s: Channel, reader: Id, now: int): seq<Message> {
    if s.latest.None? || LatestExpired(s, now) then []
    else if reader in s.latestSeen && s.latestSeen[reader] == s.latest.value.sequence then []
    else [s.latest.value]
  }

  ghost function ReadLatest(s: Channel, reader: Id, now: int, prune: bool): Channel {
    if LatestExpired(s, now) then Forgotten(s)
    else if LatestRead(s, reader, now) == [] then s
    else
      var sequence := s.latest.value.sequence;
      var seen := s.latestSeen[reader := sequence];
      s.(latestSeen := if prune then Pruned(seen, LatestCursorsKept(seen, sequence)) else seen,
         counts := s.counts.(delivered := s.counts.delivered + 1))
  }

  /** What a snapshot shows, and what it does to the channel: it only drops expired messages. */
  function SnapshotView(s: Channel, now: int, max: nat): seq<Message> {
    if s.config.LatestStyle() then
      if s.latest.None? || LatestExpired(s, now) then [] else [s.latest.value]
    else Batch(Live(s.config, s.queue, now), max)
  }

  function Snapshot(s: Channel, now: int): Channel {
    if s.config.LatestStyle() then
      if LatestExpired(s, now) then Forgotten(s) else s
    else
      var q := Live(s.config, s.queue, now);
      LiveShrinks(s.config, s.queue, now);
      var lost := |s.queue| - |q|;
      s.(queue := q, depth := |q|,
         counts := s.counts.(stale := s.counts.stale + lost, dropped := s.counts.dropped + lost))
  }

  /** An epoch boundary: the pending value of a previous-tick channel becomes readable. */
  function Advanced(s: Channel): Channel {
    if s.config.kind == PreviousTick && s.pending.Some? then s.(latest := s.pending, pending := None, depth := 1)
    else s
  }

  // What filtering keeps.

  lemma {:induction false} LiveShrinks(c: Config, q: seq<Message>, now: int)
    ensures |Live(c, q, now)| <= |q|
  {
    if q != [] {
      LiveShrinks(c, q[..|q| - 1], now);
    }
  }

  ghost predicate Increasing(q: seq<Message>) {
    forall i, j :: 0 <= i < j < |q| ==> q[i].sequence < q[j].sequence
  }

  lemma IncreasingAppend(q: seq<Message>, m: Message)
    requires Increasing(q) && forall x :: x in q ==> x.sequence < m.sequence
    ensures Increasing(q + [m])
  {
    forall i, j | 0 <= i < j < |q + [m]| ensures (q + [m])[i].sequence < (q + [m])[j].sequence {
      assert (q + [m])[i] == q[i];
    }
  }

  lemma {:induction false} LiveKeeps(c: Config, q: seq<Message>, now: int)
    requires Increasing(q)
    ensures Increasing(Live(c, q, now))
    ensures forall m :: m in Live(c, q, now) <==> m in q && !c.Expired(m, now)
  {
    if q != [] {
      var m := q[|q| - 1];
      LiveKeeps(c, q[..|q| - 1], now);
      assert q == q[..|q| - 1] + [m];
      forall x | x in Live(c, q[..|q| - 1], now) ensures x.sequence < m.sequence {
        var i :| 0 <= i < |q| - 1 && q[i] == x;
      }
      IncreasingAppend(Live(c, q[..|q| - 1], now), m);
    }
  }

  lemma {:induction false} BeyondKeeps(q: seq<Message>, cursor: nat)
    requires Increasing(q)
    ensures Increasing(Beyond(q, cursor)) && |Beyond(q, cursor)| <= |q|
    ensures forall m :: m in Beyond(q, cursor) <==> m in q && m.sequence > cursor
  {
    if q != [] {
      var m := q[|q| - 1];
      BeyondKeeps(q[..|q| - 1], cursor);
      assert q == q[..|q| - 1] + [m];
      forall x | x in Beyond(q[..|q| - 1], cursor) ensures x.sequence < m.sequence {
        var i :| 0 <= i < |q| - 1 && q[i] == x;
      }
      IncreasingAppend(Beyond(q[..|q| - 1], cursor), m);
    }
  }

  /** Cursors that agree on every message of a queue select the same messages. */
  lemma {:induction false} BeyondAgrees(q: seq<Message>, a: nat, b: nat)
    requires forall m :: m in q ==> (m.sequence <= a <==> m.sequence <= b)
    ensures Beyond(q, a) == Beyond(q, b)
  {
    if q != [] {
      BeyondAgrees(q[..|q| - 1], a, b);
    }
  }

  // The invariant of a channel.

  ghost predicate InRange(s: Channel, m: Message) {
    1 <= m.sequence < s.next
  }

  ghost predicate QueueSound(s: Channel) {
    && 1 <= s.config.capacity && |s.queue| <= s.config.capacity
    && Increasing(s.queue) && (forall m :: m in s.queue ==> InRange(s, m))
    && (s.config.LatestStyle() ==> s.queue == [])
    && (!s.config.LatestStyle() ==> s.depth == |s.queue|)
  }

  ghost predicate SlotsSound(s: Channel) {
    && 1 <= s.next
    && (s.latest.Some? ==> InRange(s, s.latest.value))
    && (s.pending.Some? ==> InRange(s, s.pending.value))
    && (s.latest.Some? && s.pending.Some? ==> s.latest.value.sequence < s.pending.value.sequence)
    && (s.config.kind == LatestOnly ==> s.depth == if s.latest.Some? then 1 else 0)
    && (s.config.kind != PreviousTick ==> s.pending.None?)
  }

  ghost predicate CursorsSound(s: Channel) {
    && (forall r :: r in s.latestSeen ==> s.latestSeen[r] < s.next)
    && (forall r :: r in s.queueSeen ==> s.queueSeen[r] < s.next)
    && (s.pending.Some? ==> forall r :: r in s.latestSeen ==> s.latestSeen[r] < s.pending.value.sequence)
  }

  /** Every message ever accepted by a queue or a latest-only channel is accounted for exactly once. */
  ghost predicate LedgerSound(s: Channel) {
    var c := s.counts;
    && (s.config.kind == LatestOnly ==> c.published == c.overwritten + c.stale + s.depth)
    && (!s.config.LatestStyle() ==> c.published == |s.queue| + c.overwritten + c.stale + if s.config.multiReader then 0 else c.delivered)
  }

  ghost predicate Sound(s: Channel) {
    QueueSound(s) && SlotsSound(s) && CursorsSound(s) && LedgerSound(s)
  }

  ghost predicate CursorsBounded(s: Channel) {
    |s.latestSeen| <= MAX_TRACKED_READERS && |s.queueSeen| <= MAX_TRACKED_READERS
  }

  lemma OpenedSound(config: Config)
    requires config.capacity >= 1
    ensures Sound(Opened(config)) && CursorsBounded(Opened(config))
  {
  }

  lemma PublishedQueueSound(s: Channel, p: Payload, now: int, stamp: Option<Stamp>)
    requires Sound(s)
    ensures QueueSound(Published(s, p, now, stamp))
  {
    var s', m := Published(s, p, now, stamp), NextMessage(s, p, now, stamp);
    assert 1 <= s.next;
    hide SlotsSound, CursorsSound, LedgerSound;
    IncreasingAppend(s.queue, m);
    assert s'.queue == s.queue || s'.queue == [] || s'.queue == Bounded(s.queue + [m], s.config.capacity);
    forall x | x in s'.queue ensures InRange(s', x) {
      assert x in s.queue || x == m;
    }
  }

  lemma PublishedOtherSound(s: Channel, p: Payload, now: int, stamp: Option<Stamp>)
    requires Sound(s)
    ensures SlotsSound(Published(s, p, now, stamp)) && CursorsSound(Published(s, p, now, stamp))
  {
    hide Increasing, LedgerSound;
  }

  lemma PublishedLedgerSound(s: Channel, p: Payload, now: int, stamp: Option<Stamp>)
    requires Sound(s)
    ensures LedgerSound(Published(s, p, now, stamp))
  {
    hide Increasing, CursorsSound;
    var q := Bounded(s.queue + [NextMessage(s, p, now, stamp)], s.config.capacity);
    assert |q| <= |s.queue| + 1;
  }

  lemma PublishedSound(s: Channel, p: Payload, now: int, stamp: Option<Stamp>)
    requires Sound(s)
    ensures Sound(Published(s, p, now, stamp))
  {
    PublishedQueueSound(s, p, now, stamp);
    PublishedOtherSound(s, p, now, stamp);
    PublishedLedgerSound(s, p, now, stamp);
    hide Published, QueueSound, SlotsSound, CursorsSound, LedgerSound;
  }

  lemma TallySound(s: Channel, dropped: nat)
    ensures Sound(s) ==> Sound(Tallied(s, dropped))
    ensures CursorsBounded(s) ==> CursorsBounded(Tallied(s, dropped))
  {
  }

  lemma BatchSplits(q: seq<Message>, max: nat)
    requires Increasing(q)
    ensures Batch(q, max) + q[|Batch(q, max)|..] == q
    ensures Increasing(Batch(q, max)) && Increasing(q[|Batch(q, max)|..])
  {
  }

  lemma PrunedKeeps(seen: map<Id, nat>, kept: map<Id, nat>)
    requires kept.Keys <= seen.Keys && forall k :: k in kept ==> kept[k] == seen[k]
    ensures var r := Pruned(seen, kept); r.Keys <= seen.Keys && forall k :: k in r ==> r[k] == seen[k]
    ensures |Pruned(seen, kept)| <= MAX_TRACKED_READERS
  {
  }

  /** A queue read splits the unexpired messages into what it delivers and what it retains. */
  /** What a publication does to a queue: it joins the end while there is room; a full queue loses its oldest message for
      it, or turns it away, as the policy says. Every attempt takes a sequence number, and a refusal is counted. */
  lemma PublishedToQueue(s: Channel, p: Payload, now: int, stamp: Option<Stamp>)
    requires s.config.kind in {EveryMessage, Barrier} && 1 <= s.config.capacity && |s.queue| <= s.config.capacity
    ensures var s', m := Published(s, p, now, stamp), Message(s.config.id, s.next, p, now, now, stamp);
      && s'.next == s.next + 1
      && if |s.queue| < s.config.capacity then s'.queue == s.queue + [m] && s'.counts == s.counts.(published := s.counts.published + 1)
         else if s.config.dropPolicy in {Overwrite, DropOldest} then
           s'.queue == s.queue[1..] + [m] && s'.counts == s.counts.(published := s.counts.published + 1, overwritten := s.counts.overwritten + 1)
         else
           s'.queue == s.queue && s'.counts == s.counts.(rejected := s.counts.rejected + 1,
             dropped := s.counts.dropped + if s.config.dropPolicy == BlockProducer then 0 else 1)
  {
  }

  /** What a publication does to a channel that holds one value: it replaces that value, at once or, on a previous_tick
      channel, when the epoch advances; it is never refused. */
  lemma PublishedAsValue(s: Channel, p: Payload, now: int, stamp: Option<Stamp>)
    requires s.config.kind in {LatestOnly, LatchedSnapshot, PreviousTick}
    ensures var s', m := Published(s, p, now, stamp), Message(s.config.id, s.next, p, now, now, stamp);
      && s'.next == s.next + 1
      && (if s.config.kind == PreviousTick then s'.latest == s.latest && s'.pending == Some(m) else s'.latest == Some(m) && s'.pending == s.pending)
  {
  }

  /** A read of a value gives it unless it has expired or the reader has been given it already. */
  lemma ValueGivenOnce(s: Channel, reader: Id, now: int)
    requires s.latest.Some?
    ensures var m := s.latest.value;
      LatestRead(s, reader, now) ==
      if s.config.lifespan > 0 && now - m.publishedAt > s.config.lifespan then []
      else if reader in s.latestSeen && s.latestSeen[reader] == m.sequence then [] else [m]
  {
  }

  /** A read gives exactly what is due, in order: what has not expired and, if there are several readers, lies beyond the
      reader's cursor; up to the batch limit, the oldest first. A barrier that is not full gives nothing. */
  lemma ReadGivesDue(s: Channel, reader: Id, now: int, max: nat)
    requires Increasing(s.queue)
    ensures var all := QueueRead(s, reader, now, 0);
      && Increasing(all)
      && (forall m :: m in all <==>
           && m in s.queue && (s.config.kind == Barrier ==> |s.queue| >= s.config.capacity)
           && !(s.config.lifespan > 0 && now - m.publishedAt > s.config.lifespan)
           && (s.config.multiReader ==> m.sequence > Cursor(s.queueSeen, reader)))
      && QueueRead(s, reader, now, max) == if 0 < max < |all| then all[..max] else all
  {
    hide Live, Beyond;
    LiveKeeps(s.config, s.queue, now);
    BeyondKeeps(Live(s.config, s.queue, now), Cursor(s.queueSeen, reader));
  }

  lemma ReadSplits(s: Channel, reader: Id, now: int, max: nat)
    requires Increasing(s.queue) && !(s.config.kind == Barrier && |s.queue| < s.config.capacity)
    ensures var cursor := Cursor(s.queueSeen, reader);
      var live, out := Live(s.config, s.queue, now), QueueRead(s, reader, now, max);
      var kept := Retained(s.config, s.queue, cursor, now, max);
      && Increasing(kept) && (forall m :: m in kept || m in out ==> m in live && m in s.queue)
      && |kept| <= |live| <= |s.queue| && (if s.config.multiReader then kept == live else live == out + kept)
  {
    hide Live, Beyond;
    var cursor := Cursor(s.queueSeen, reader);
    var live := Live(s.config, s.queue, now);
    LiveKeeps(s.config, s.queue, now);
    LiveShrinks(s.config, s.queue, now);
    BeyondKeeps(live, cursor);
    BatchSplits(Wanted(s.config, s.queue, cursor, now), max);
  }

  lemma ReadQueueSound(s: Channel, reader: Id, now: int, max: nat, prune: bool)
    requires Sound(s) && !s.config.LatestStyle()
    ensures Sound(ReadQueue(s, reader, now, max, prune))
    ensures CursorsBounded(s) && prune ==> CursorsBounded(ReadQueue(s, reader, now, max, prune))
  {
    hide Live, Beyond, Pruned, Retained, QueueRead, Increasing, QueueCursorsKept;
    if !(s.config.kind == Barrier && |s.queue| < s.config.capacity) {
      ReadSplits(s, reader, now, max);
      ReadQueueCursors(s, reader, now, max);
    }
  }

  ghost predicate Behind(seen: map<Id, nat>, next: nat) {
    forall r :: r in seen ==> seen[r] < next
  }

  lemma ReadQueueCursors(s: Channel, reader: Id, now: int, max: nat)
    requires Sound(s) && !(s.config.kind == Barrier && |s.queue| < s.config.capacity)
    ensures var seen := Noted(s.queueSeen, reader, QueueRead(s, reader, now, max));
      var kept := Retained(s.config, s.queue, Cursor(s.queueSeen, reader), now, max);
      && Behind(seen, s.next)
      && Behind(Pruned(seen, QueueCursorsKept(seen, kept)), s.next)
      && |Pruned(seen, QueueCursorsKept(seen, kept))| <= MAX_TRACKED_READERS
      && Behind(Pruned(s.queueSeen, QueueCursorsKept(s.queueSeen, kept)), s.next)
      && |Pruned(s.queueSeen, QueueCursorsKept(s.queueSeen, kept))| <= MAX_TRACKED_READERS
  {
    hide Live, Beyond, Pruned, Retained, QueueRead, Increasing;
    var out := QueueRead(s, reader, now, max);
    var seen := Noted(s.queueSeen, reader, out);
    var kept := Retained(s.config, s.queue, Cursor(s.queueSeen, reader), now, max);
    ReadSplits(s, reader, now, max);
    assert out != [] ==> out[|out| - 1] in out;
    PrunedKeeps(seen, QueueCursorsKept(seen, kept));
    PrunedKeeps(s.queueSeen, QueueCursorsKept(s.queueSeen, kept));
  }

  lemma ReadLatestSound(s: Channel, reader: Id, now: int, prune: bool)
    requires Sound(s) && s.config.LatestStyle()
    ensures Sound(ReadLatest(s, reader, now, prune))
    ensures CursorsBounded(s) && prune ==> CursorsBounded(ReadLatest(s, reader, now, prune))
  {
    hide Pruned;
    if !LatestExpired(s, now) && LatestRead(s, reader, now) != [] {
      var seen := s.latestSeen[reader := s.latest.value.sequence];
      PrunedKeeps(seen, LatestCursorsKept(seen, s.latest.value.sequence));
    }
  }

  lemma SnapshotSound(s: Channel, now: int)
    requires Sound(s)
    ensures Sound(Snapshot(s, now))
  {
    if !s.config.LatestStyle() {
      LiveKeeps(s.config, s.queue, now);
      LiveShrinks(s.config, s.queue, now);
    }
  }

  lemma AdvancedSound(s: Channel)
    requires Sound(s)
    ensures Sound(Advanced(s))
  {
  }
}
