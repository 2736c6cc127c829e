/** Batches of publications over many channels: when one fits, and what committing it does. */
module ChannelBatch {
  import opened Ids
  import opened Messages
  import opened Channels
  import opened GraphSpecs

  type ChannelMap = map<Id, Channel>

  /** One publication bound for one channel. */
  datatype Item = Item(channel: Id, payload: Payload, stamp: Option<Stamp>)

  /** A publication as handed to the bus: for a channel, or for every channel fed by a source endpoint. */
  datatype Publication = Publication(toChannel: bool, id: Id, payload: Option<Payload>, kind: EdgeKind, stamp: Option<Stamp>)

  function Count(items: seq<Item>, c: Id): nat {
    if items == [] then 0
    else Count(items[..|items| - 1], c) + if items[|items| - 1].channel == c then 1 else 0
  }

  lemma {:induction false} CountConcat(a: seq<Item>, b: seq<Item>, c: Id)
    ensures Count(a + b, c) == Count(a, c) + Count(b, c)
  {
    if b == [] {
      assert a + b == a;
    } else {
      assert (a + b)[..|a + b| - 1] == a + b[..|b| - 1];
      CountConcat(a, b[..|b| - 1], c);
    }
  }

  /** The channel can take n more publications without turning one away. */
  predicate Room(s: Channel, n: nat) {
    s.config.LatestStyle() || !s.config.Rejecting() || |s.queue| + n <= s.config.capacity
  }

  ghost predicate Targets(channels: ChannelMap, items: seq<Item>) {
    forall i :: 0 <= i < |items| ==> items[i].channel in channels
  }

  /** A batch fits when every channel carries its payloads and has room for all its publications together. */
  ghost predicate Fits(channels: ChannelMap, items: seq<Item>)
    requires Targets(channels, items)
  {
    forall i :: 0 <= i < |items| ==>
      var s := channels[items[i].channel];
      s.config.Carries(items[i].payload) && Room(s, Count(items, items[i].channel))
  }

  lemma FitsPrefix(channels: ChannelMap, a: seq<Item>, b: seq<Item>)
    requires Targets(channels, a + b) && Fits(channels, a + b)
    ensures Targets(channels, a) && Fits(channels, a)
  {
    forall i | 0 <= i < |a|
      ensures a[i].channel in channels
      ensures var s := channels[a[i].channel]; s.config.Carries(a[i].payload) && Room(s, Count(a, a[i].channel))
    {
      assert (a + b)[i] == a[i];
      CountConcat(a, b, a[i].channel);
    }
  }

  /** Adding one item to a fitting batch: it still fits exactly when that item passes its own preflight. */
  lemma FitsOneMore(channels: ChannelMap, items: seq<Item>, x: Item)
    requires Targets(channels, items + [x]) && Targets(channels, items) && Fits(channels, items) && x.channel in channels
    ensures Fits(channels, items + [x]) <==>
      channels[x.channel].config.Carries(x.payload) && Room(channels[x.channel], Count(items, x.channel) + 1)
  {
    var all := items + [x];
    assert all[..|items|] == items && all[|items|] == x;
    if channels[x.channel].config.Carries(x.payload) && Room(channels[x.channel], Count(items, x.channel) + 1) {
      forall i | 0 <= i < |all|
        ensures var s := channels[all[i].channel]; s.config.Carries(all[i].payload) && Room(s, Count(all, all[i].channel))
      {
        if i < |items| {
          assert all[i] == items[i];
        }
      }
    } else {
      assert all[|items|].channel == x.channel;
    }
  }

  /** The channels after the items are published in order, each whether there is room or not. */
  function Commit(channels: ChannelMap, items: seq<Item>, now: int): (r: ChannelMap)
    requires Targets(channels, items)
    ensures r.Keys == channels.Keys
  {
    if items == [] then channels
    else
      var front, x := items[..|items| - 1], items[|items| - 1];
      var before := Commit(channels, front, now);
      before[x.channel := Published(before[x.channel], x.payload, now, x.stamp)]
  }

  /** The messages one channel gains from a batch, numbered from its next sequence. */
  function Gained(items: seq<Item>, c: Id, next: nat, now: int): (r: seq<Message>)
    ensures |r| == Count(items, c)
  {
    if items == [] then []
    else
      var x := items[|items| - 1];
      var front := Gained(items[..|items| - 1], c, next, now);
      if x.channel == c then front + [Message(c, next + |front|, x.payload, now, now, x.stamp)] else front
  }

  /** The channel has accepted exactly these messages: none was turned away, and a queue keeps the newest. */
  ghost predicate Gains(s: Channel, s': Channel, gained: seq<Message>) {
    && s'.config == s.config && s'.next == s.next + |gained|
    && s'.counts.published == s.counts.published + |gained| && s'.counts.rejected == s.counts.rejected
    && s'.queue == (if s.config.LatestStyle() then [] else Bounded(s.queue + gained, s.config.capacity))
    && s'.latest == (if s.config.kind == PreviousTick then s.latest else LastGained(gained, s.latest))
    && s'.pending == (if s.config.kind == PreviousTick then LastGained(gained, s.pending) else s.pending)
  }

  /** The last of the messages gained, or what was there if there was none. */
  function LastGained(gained: seq<Message>, before: Option<Message>): Option<Message> {
    if gained == [] then before else Some(gained[|gained| - 1])
  }

  /** Until its room is used up, a channel accepts every publication of a batch. */
  lemma {:induction false} CommitGains(channels: ChannelMap, items: seq<Item>, now: int, c: Id)
    requires Targets(channels, items) && c in channels && channels[c].config.id == c
    requires Sound(channels[c]) && Room(channels[c], Count(items, c))
    ensures Gains(channels[c], Commit(channels, items, now)[c], Gained(items, c, channels[c].next, now))
  {
    hide Sound, Published, Full, Gains, Room, Targets;
    var s := channels[c];
    if items == [] {
      QueueFits(s);
      GainsNothing(s);
    } else {
      hide Commit, Gained, Count;
      var front, x := items[..|items| - 1], items[|items| - 1];
      CommitStep(channels, items, now, c);
      RoomLess(s, Count(items, c), Count(front, c));
      CommitGains(channels, front, now, c);
      if x.channel == c {
        QueueFits(s);
        GainOne(s, Commit(channels, front, now)[c], x, Gained(front, c, s.next, now), now);
      }
    }
  }

  lemma GainsNothing(s: Channel)
    requires |s.queue| <= s.config.capacity && (s.config.LatestStyle() ==> s.queue == [])
    ensures Gains(s, s, [])
  {
    assert s.queue + [] == s.queue;
  }

  lemma RoomLess(s: Channel, n: nat, m: nat)
    requires Room(s, n) && m <= n
    ensures Room(s, m)
  {
  }

  lemma QueueFits(s: Channel)
    requires Sound(s)
    ensures 1 <= s.config.capacity && |s.queue| <= s.config.capacity && (s.config.LatestStyle() ==> s.queue == [])
  {
  }

  lemma CommitStep(channels: ChannelMap, items: seq<Item>, now: int, c: Id)
    requires Targets(channels, items) && items != [] && c in channels
    ensures Targets(channels, items[..|items| - 1])
    ensures var front, x := items[..|items| - 1], items[|items| - 1];
      var before := Commit(channels, front, now)[c];
      && Commit(channels, items, now)[c] == (if x.channel == c then Published(before, x.payload, now, x.stamp) else before)
      && Count(items, c) == Count(front, c) + (if x.channel == c then 1 else 0)
      && forall next: nat :: Gained(items, c, next, now) == Gained(front, c, next, now) +
          if x.channel == c then [Message(c, next + |Gained(front, c, next, now)|, x.payload, now, now, x.stamp)] else []
  {
    hide Published;
  }

  lemma GainOne(s: Channel, before: Channel, x: Item, gained: seq<Message>, now: int)
    requires 1 <= s.config.capacity && |s.queue| <= s.config.capacity && Room(s, |gained| + 1) && x.channel == s.config.id
    requires Gains(s, before, gained)
    ensures Gains(s, Published(before, x.payload, now, x.stamp), gained + [Message(s.config.id, s.next + |gained|, x.payload, now, now, x.stamp)])
    ensures !Full(before)
  {
    var m := NextMessage(before, x.payload, now, x.stamp);
    if !s.config.LatestStyle() {
      var all, cap := s.queue + gained, s.config.capacity;
      assert s.queue + (gained + [m]) == all + [m];
      BoundedTwice(all, m, cap);
    }
  }

  lemma BoundedTwice(all: seq<Message>, m: Message, cap: nat)
    requires cap >= 1
    ensures Bounded(Bounded(all, cap) + [m], cap) == Bounded(all + [m], cap)
  {
  }

  lemma {:induction false} CountedOccurs(items: seq<Item>, c: Id)
    ensures Count(items, c) > 0 ==> exists i :: 0 <= i < |items| && items[i].channel == c
  {
    if items != [] && items[|items| - 1].channel != c {
      CountedOccurs(items[..|items| - 1], c);
    }
  }

  /** A batch that fits arrives whole on every channel: no publication is turned away, sequence numbers run on
      from the channel's next one, the latest value (pending, on a previous-tick channel) is that of the last
      publication, and a queue that refuses on overflow loses none of its old messages. */
  lemma FittingBatchArrives(channels: ChannelMap, items: seq<Item>, now: int, c: Id)
    requires AllSound(channels) && Targets(channels, items) && Fits(channels, items) && c in channels
    ensures Gains(channels[c], Commit(channels, items, now)[c], Gained(items, c, channels[c].next, now))
    ensures !channels[c].config.LatestStyle() && channels[c].config.Rejecting() ==>
      Commit(channels, items, now)[c].queue == channels[c].queue + Gained(items, c, channels[c].next, now)
  {
    hide CursorsBounded, Commit, Gained, Count;
    CountedOccurs(items, c);
    CommitGains(channels, items, now, c);
  }

  /** Equal but for the tallies of refusals. */
  predicate SameContents(a: Channel, b: Channel) {
    a.(counts := b.counts) == b && a.counts.(dropped := b.counts.dropped, rejected := b.counts.rejected) == b.counts
  }

  ghost predicate AllSameContents(a: ChannelMap, b: ChannelMap) {
    a.Keys == b.Keys && forall c :: c in a ==> SameContents(a[c], b[c])
  }

  ghost predicate AllSound(channels: ChannelMap) {
    forall c :: c in channels ==> Sound(channels[c]) && CursorsBounded(channels[c]) && channels[c].config.id == c
  }
}
