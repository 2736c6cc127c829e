/** Whole runs of one channel: what each reader is given, and why forgetting cursors cannot be noticed. */
module ReaderCursors {
  import opened Ids
  import opened Messages
  import opened Channels

  datatype Step =
    | Publish(payload: Payload, now: int, stamp: Option<Stamp>)
    | Refuse(dropped: nat)
    | Read(reader: Id, now: int, max: nat)
    | Look(now: int)
    | Advance

  ghost function Apply(s: Channel, step: Step, prune: bool): Channel {
    match step
    case Publish(p, now, stamp) => Published(s, p, now, stamp)
    case Refuse(dropped) => Tallied(s, dropped)
    case Read(reader, now, max) =>
      if s.config.LatestStyle() then ReadLatest(s, reader, now, prune) else ReadQueue(s, reader, now, max, prune)
    case Look(now) => Snapshot(s, now)
    case Advance => Advanced(s)
  }

  function Output(s: Channel, reader: Id, now: int, max: nat): seq<Message> {
    if s.config.LatestStyle() then LatestRead(s, reader, now) else QueueRead(s, reader, now, max)
  }

  /** The state after a list of steps, with or without forgetting cursors. */
  ghost function Run(config: Config, steps: seq<Step>, prune: bool): Channel {
    if steps == [] then Opened(config)
    else Apply(Run(config, steps[..|steps| - 1], prune), steps[|steps| - 1], prune)
  }

  /** Everything a reader was given, in order. */
  ghost function Received(config: Config, steps: seq<Step>, prune: bool, r: Id): seq<Message> {
    if steps == [] then []
    else
      var front, step := steps[..|steps| - 1], steps[|steps| - 1];
      Received(config, front, prune, r) + Given(Run(config, front, prune), step, r)
  }

  ghost function Given(s: Channel, step: Step, r: Id): seq<Message> {
    if step.Read? && step.reader == r then Output(s, r, step.now, step.max) else []
  }

  /** The readers whose cursor the hard cap, and not safe pruning, takes away in a step. */
  ghost function CapVictims(s: Channel, step: Step): set<Id> {
    if !step.Read? || (s.config.LatestStyle() && LatestRead(s, step.reader, step.now) == []) then {}
    else if s.config.LatestStyle() then
      var seen := s.latestSeen[step.reader := s.latest.value.sequence];
      var kept := LatestCursorsKept(seen, s.latest.value.sequence);
      kept.Keys - Capped(kept).Keys
    else if s.config.kind == Barrier && |s.queue| < s.config.capacity then {}
    else
      var kept := QueueCursorsKept(QueueSeenAfter(s, step), Retained(s.config, s.queue, Cursor(s.queueSeen, step.reader), step.now, step.max));
      kept.Keys - Capped(kept).Keys
  }

  function QueueSeenAfter(s: Channel, step: Step): map<Id, nat>
    requires step.Read?
  {
    if s.config.multiReader then Noted(s.queueSeen, step.reader, QueueRead(s, step.reader, step.now, step.max))
    else s.queueSeen
  }

  ghost function Evicted(config: Config, steps: seq<Step>): set<Id> {
    if steps == [] then {}
    else
      var front, step := steps[..|steps| - 1], steps[|steps| - 1];
      Evicted(config, front) + CapVictims(Run(config, front, true), step)
  }

  lemma ApplySound(s: Channel, step: Step, prune: bool)
    requires Sound(s)
    ensures Sound(Apply(s, step, prune)) && Apply(s, step, prune).config == s.config
    ensures prune && CursorsBounded(s) ==> CursorsBounded(Apply(s, step, prune))
  {
    hide Sound, Published, ReadQueue, ReadLatest, Snapshot, Advanced;
    match step {
      case Publish(p, now, stamp) =>
        PublishedSound(s, p, now, stamp);
        PublishedCursors(s, p, now, stamp);
      case Refuse(dropped) => TallySound(s, dropped);
      case Read(reader, now, max) =>
        if s.config.LatestStyle() {
          ReadLatestSound(s, reader, now, prune);
        } else {
          ReadQueueSound(s, reader, now, max, prune);
        }
        ReadConfig(s, reader, now, max, prune);
      case Look(now) =>
        SnapshotSound(s, now);
        SnapshotCursors(s, now);
      case Advance =>
        AdvancedSound(s);
        AdvancedCursors(s);
    }
  }

  // What is read is what was published.

  /** The messages a channel holds, readable or not. */
  ghost function Held(s: Channel): set<Message> {
    (set m | m in s.queue) + (if s.latest.Some? then {s.latest.value} else {}) + if s.pending.Some? then {s.pending.value} else {}
  }

  /** What a publication brings to a channel. */
  ghost function Brought(s: Channel, step: Step): set<Message> {
    if step.Publish? then {Message(s.config.id, s.next, step.payload, step.now, step.now, step.stamp)} else {}
  }

  /** Every message a channel holds carries the channel's id. */
  ghost predicate Labelled(s: Channel) {
    forall m :: m in Held(s) ==> m.channel == s.config.id
  }

  lemma {:induction false} LiveIn(c: Config, q: seq<Message>, now: int)
    ensures forall m :: m in Live(c, q, now) ==> m in q
  {
    if q != [] {
      LiveIn(c, q[..|q| - 1], now);
      assert q == q[..|q| - 1] + [q[|q| - 1]];
    }
  }

  lemma {:induction false} BeyondIn(q: seq<Message>, cursor: nat)
    ensures forall m :: m in Beyond(q, cursor) ==> m in q
  {
    if q != [] {
      BeyondIn(q[..|q| - 1], cursor);
      assert q == q[..|q| - 1] + [q[|q| - 1]];
    }
  }

  lemma WantedIn(c: Config, q: seq<Message>, cursor: nat, now: int, max: nat)
    ensures forall m :: m in Wanted(c, q, cursor, now) ==> m in q
    ensures forall m :: m in Batch(Wanted(c, q, cursor, now), max) ==> m in q
    ensures forall m :: m in Retained(c, q, cursor, now, max) ==> m in q
  {
    hide Live, Beyond;
    LiveIn(c, q, now);
    BeyondIn(Live(c, q, now), cursor);
  }

  lemma OutputHeld(s: Channel, reader: Id, now: int, max: nat)
    ensures forall m :: m in Output(s, reader, now, max) ==> m in Held(s)
  {
    hide Wanted, Retained, Live;
    WantedIn(s.config, s.queue, Cursor(s.queueSeen, reader), now, max);
  }

  lemma OutputLabelled(s: Channel, reader: Id, now: int, max: nat)
    requires Labelled(s)
    ensures forall m :: m in Output(s, reader, now, max) ==> m.channel == s.config.id
  {
    hide Output, Held;
    OutputHeld(s, reader, now, max);
  }

  /** A step adds nothing to a channel but the message that is published, under the next sequence number. */
  lemma ApplyHeld(s: Channel, step: Step, prune: bool)
    ensures var s' := Apply(s, step, prune); Held(s') <= Held(s) + Brought(s, step) && s'.config == s.config
    ensures Apply(s, step, prune).next == s.next + if step.Publish? then 1 else 0
  {
    hide Held, Published, ReadQueue, ReadLatest, Snapshot, Advanced, Tallied;
    match step {
      case Publish(p, now, stamp) => PublishedHeld(s, p, now, stamp);
      case Refuse(dropped) => AdvancedHeld(s, dropped);
      case Read(reader, now, max) =>
        if s.config.LatestStyle() {
          ReadLatestHeld(s, reader, now, prune);
        } else {
          ReadQueueHeld(s, reader, now, max, prune);
        }
      case Look(now) => SnapshotHeld(s, now);
      case Advance => AdvancedHeld(s, 0);
    }
  }

  lemma ApplyLabelled(s: Channel, step: Step, prune: bool)
    requires Labelled(s)
    ensures Labelled(Apply(s, step, prune)) && Apply(s, step, prune).config == s.config
  {
    hide Held, Apply;
    ApplyHeld(s, step, prune);
  }

  lemma PublishedHeld(s: Channel, p: Payload, now: int, stamp: Option<Stamp>)
    ensures var s' := Published(s, p, now, stamp);
      Held(s') <= Held(s) + {Message(s.config.id, s.next, p, now, now, stamp)} && s'.config == s.config && s'.next == s.next + 1
  {
  }

  lemma AdvancedHeld(s: Channel, dropped: nat)
    ensures Held(Advanced(s)) <= Held(s) && Advanced(s).config == s.config && Advanced(s).next == s.next
    ensures var s' := Tallied(s, dropped); Held(s') <= Held(s) && s'.config == s.config && s'.next == s.next
  {
  }

  lemma ReadLatestHeld(s: Channel, reader: Id, now: int, prune: bool)
    ensures var s' := ReadLatest(s, reader, now, prune); Held(s') <= Held(s) && s'.config == s.config && s'.next == s.next
  {
    hide Pruned, LatestCursorsKept;
  }

  lemma ReadQueueHeld(s: Channel, reader: Id, now: int, max: nat, prune: bool)
    ensures var s' := ReadQueue(s, reader, now, max, prune); Held(s') <= Held(s) && s'.config == s.config && s'.next == s.next
  {
    hide Pruned, QueueCursorsKept, Wanted, Retained, Live;
    WantedIn(s.config, s.queue, Cursor(s.queueSeen, reader), now, max);
  }

  lemma SnapshotHeld(s: Channel, now: int)
    ensures var s' := Snapshot(s, now); Held(s') <= Held(s) && s'.config == s.config && s'.next == s.next
  {
    hide Live;
    LiveIn(s.config, s.queue, now);
  }

  /** How often something was published, refusals included. */
  function Attempts(steps: seq<Step>): nat {
    if steps == [] then 0 else Attempts(steps[..|steps| - 1]) + if steps[|steps| - 1].Publish? then 1 else 0
  }

  /** The message is that of the k-th step, which published it: with its payload, time and timestamp, and numbered by
      how often something had been published by then. */
  ghost predicate PublishedBy(config: Config, steps: seq<Step>, k: nat, m: Message)
    requires k < |steps|
  {
    steps[k].Publish? && m == Message(config.id, Attempts(steps[..k]) + 1, steps[k].payload, steps[k].now, steps[k].now, steps[k].stamp)
  }

  ghost predicate WasPublished(config: Config, steps: seq<Step>, m: Message) {
    exists k: nat :: k < |steps| && PublishedBy(config, steps, k, m)
  }

  lemma StillPublished(config: Config, steps: seq<Step>, step: Step, m: Message)
    requires WasPublished(config, steps, m)
    ensures WasPublished(config, steps + [step], m)
  {
    var k: nat :| k < |steps| && PublishedBy(config, steps, k, m);
    assert (steps + [step])[..k] == steps[..k];
    assert PublishedBy(config, steps + [step], k, m);
  }

  /** Over every run, whatever a channel holds was published to it, as it is. */
  lemma {:induction false} HeldWasPublished(config: Config, steps: seq<Step>, prune: bool)
    ensures forall m :: m in Held(Run(config, steps, prune)) ==> WasPublished(config, steps, m)
    ensures Run(config, steps, prune).next == Attempts(steps) + 1 && Run(config, steps, prune).config == config
  {
    hide Apply, Held;
    if steps == [] {
      NothingHeld(config);
    } else {
      var n := |steps| - 1;
      HeldWasPublished(config, steps[..n], prune);
      ApplyHeld(Run(config, steps[..n], prune), steps[n], prune);
      assert steps == steps[..n] + [steps[n]];
      forall m | m in Held(Run(config, steps, prune)) ensures WasPublished(config, steps, m) {
        if m in Held(Run(config, steps[..n], prune)) {
          StillPublished(config, steps[..n], steps[n], m);
        } else {
          assert PublishedBy(config, steps, n, m);
        }
      }
    }
  }

  lemma NothingHeld(config: Config)
    ensures Held(Opened(config)) == {}
  {
  }

  /** Over every run, whatever a reader is given was published to the channel: its payload and timestamp are those of the
      publication, and no two publications give the same message. */
  lemma {:induction false} NothingMadeUp(config: Config, steps: seq<Step>, prune: bool, r: Id)
    ensures forall m :: m in Received(config, steps, prune, r) ==> WasPublished(config, steps, m)
  {
    hide Apply, Held, Output, Run;
    if steps != [] {
      var n := |steps| - 1;
      NothingMadeUp(config, steps[..n], prune, r);
      HeldWasPublished(config, steps[..n], prune);
      assert steps == steps[..n] + [steps[n]];
      forall m | m in Received(config, steps, prune, r) ensures WasPublished(config, steps, m) {
        if m !in Received(config, steps[..n], prune, r) {
          OutputHeld(Run(config, steps[..n], prune), r, steps[n].now, steps[n].max);
        }
        StillPublished(config, steps[..n], steps[n], m);
      }
    }
  }

  lemma PublishedOnce(config: Config, steps: seq<Step>, i: nat, j: nat, m: Message)
    requires i < j < |steps| && PublishedBy(config, steps, i, m)
    ensures !PublishedBy(config, steps, j, m)
  {
    AttemptsGrow(steps, i + 1, j);
    assert steps[..i + 1][..i] == steps[..i];
  }

  lemma {:induction false} AttemptsGrow(steps: seq<Step>, i: nat, j: nat)
    requires i <= j <= |steps|
    ensures Attempts(steps[..i]) <= Attempts(steps[..j])
  {
    if i < j {
      AttemptsGrow(steps, i, j - 1);
      assert steps[..j][..j - 1] == steps[..j - 1];
    }
  }

  lemma {:induction false} RunLabelled(config: Config, steps: seq<Step>, prune: bool)
    ensures Labelled(Run(config, steps, prune)) && Run(config, steps, prune).config == config
  {
    hide Apply, Labelled;
    if steps == [] {
      OpenedLabelled(config);
    } else {
      RunLabelled(config, steps[..|steps| - 1], prune);
      ApplyLabelled(Run(config, steps[..|steps| - 1], prune), steps[|steps| - 1], prune);
    }
  }

  lemma OpenedLabelled(config: Config)
    ensures Labelled(Opened(config)) && Opened(config).config == config
  {
    NothingHeld(config);
  }

  lemma PublishedCursors(s: Channel, p: Payload, now: int, stamp: Option<Stamp>)
    ensures var s' := Published(s, p, now, stamp); s'.config == s.config && s'.queueSeen == s.queueSeen && s'.latestSeen == s.latestSeen
  {
  }

  lemma SnapshotCursors(s: Channel, now: int)
    ensures var s' := Snapshot(s, now); s'.config == s.config && s'.queueSeen == s.queueSeen && s'.latestSeen == s.latestSeen
  {
  }

  lemma AdvancedCursors(s: Channel)
    ensures var s' := Advanced(s); s'.config == s.config && s'.queueSeen == s.queueSeen && s'.latestSeen == s.latestSeen
  {
  }

  lemma ReadConfig(s: Channel, reader: Id, now: int, max: nat, prune: bool)
    ensures ReadQueue(s, reader, now, max, prune).config == s.config && ReadLatest(s, reader, now, prune).config == s.config
  {
  }

  /** In every reachable state the queue is within its capacity and increasing, the ledger balances, and the
      cursor maps are within the cap. */
  lemma {:induction false} EveryRunSound(config: Config, steps: seq<Step>, prune: bool)
    requires config.capacity >= 1
    ensures Sound(Run(config, steps, prune)) && Run(config, steps, prune).config == config
    ensures prune ==> CursorsBounded(Run(config, steps, prune))
  {
    hide Sound, CursorsBounded, Apply;
    OpenedSound(config);
    if steps != [] {
      EveryRunSound(config, steps[..|steps| - 1], prune);
      ApplySound(Run(config, steps[..|steps| - 1], prune), steps[|steps| - 1], prune);
    }
  }

  // A forgotten cursor changes nothing.

  /** Everything but the cursors and the count of deliveries. */
  function Core(s: Channel): Channel {
    s.(latestSeen := map[], queueSeen := map[], counts := s.counts.(delivered := 0))
  }

  /** The two states treat the reader alike. */
  ghost predicate Alike(a: Channel, b: Channel, r: Id) {
    && Core(a) == Core(b)
    && (a.latest.Some? ==> (Cursor(a.latestSeen, r) == a.latest.value.sequence <==> Cursor(b.latestSeen, r) == a.latest.value.sequence))
    && (forall m :: m in a.queue ==> (m.sequence <= Cursor(a.queueSeen, r) <==> m.sequence <= Cursor(b.queueSeen, r)))
  }

  lemma PublishAlike(a: Channel, b: Channel, r: Id, p: Payload, now: int, stamp: Option<Stamp>)
    requires Sound(a) && Sound(b) && Alike(a, b, r)
    ensures Alike(Published(a, p, now, stamp), Published(b, p, now, stamp), r)
  {
    hide Published;
    PublishCore(a, p, now, stamp);
    PublishCore(b, p, now, stamp);
    PublishedCursors(a, p, now, stamp);
    PublishedCursors(b, p, now, stamp);
    PublishedContents(a, p, now, stamp);
    assert a.queue == Core(a).queue && a.next == Core(a).next == b.next && a.latest == Core(a).latest;
  }

  lemma PublishCore(s: Channel, p: Payload, now: int, stamp: Option<Stamp>)
    ensures Core(Published(s, p, now, stamp)) == Published(Core(s), p, now, stamp)
  {
  }

  lemma PublishedContents(s: Channel, p: Payload, now: int, stamp: Option<Stamp>)
    ensures var s' := Published(s, p, now, stamp);
      && (forall m :: m in s'.queue ==> m in s.queue || m.sequence == s.next)
      && (s'.latest == s.latest || (s'.latest.Some? && s'.latest.value.sequence == s.next))
  {
  }

  lemma RefuseAlike(a: Channel, b: Channel, r: Id, dropped: nat)
    requires Alike(a, b, r)
    ensures Alike(Tallied(a, dropped), Tallied(b, dropped), r)
  {
    assert Core(a).counts == Core(b).counts && a.queue == Core(a).queue;
  }

  lemma LookAlike(a: Channel, b: Channel, r: Id, now: int)
    requires Sound(a) && Alike(a, b, r)
    ensures Alike(Snapshot(a, now), Snapshot(b, now), r)
  {
    assert a.queue == Core(a).queue;
    LookCore(a, now);
    LookCore(b, now);
    SnapshotCursors(a, now);
    SnapshotCursors(b, now);
    LiveKeeps(a.config, a.queue, now);
    SnapshotContents(a, now);
    hide Snapshot, SlotsSound, CursorsSound, LedgerSound;
  }

  lemma LookCore(s: Channel, now: int)
    ensures Core(Snapshot(s, now)) == Snapshot(Core(s), now)
  {
  }

  lemma SnapshotContents(s: Channel, now: int)
    requires Sound(s)
    ensures forall m :: m in Snapshot(s, now).queue ==> m in s.queue
    ensures Snapshot(s, now).latest in [s.latest, None]
  {
    LiveKeeps(s.config, s.queue, now);
  }

  lemma AdvanceAlike(a: Channel, b: Channel, r: Id)
    requires Sound(a) && Sound(b) && Alike(a, b, r)
    ensures Alike(Advanced(a), Advanced(b), r)
  {
  }

  lemma OutputAlike(a: Channel, b: Channel, r: Id, now: int, max: nat)
    requires Sound(a) && Alike(a, b, r)
    ensures Output(a, r, now, max) == Output(b, r, now, max)
  {
    assert Core(a).queue == a.queue == b.queue && a.latest == Core(a).latest == b.latest;
    LiveKeeps(a.config, a.queue, now);
    BeyondAgrees(Live(a.config, a.queue, now), Cursor(a.queueSeen, r), Cursor(b.queueSeen, r));
  }

  /** Safe pruning and the cap leave what a spared reader is still owed unchanged. */
  lemma PruneUnnoticed(seen: map<Id, nat>, q: seq<Message>, r: Id)
    requires Increasing(q) && forall m :: m in q ==> m.sequence >= 1
    requires var kept := QueueCursorsKept(seen, q); r !in kept.Keys - Capped(kept).Keys
    ensures forall m :: m in q ==> (m.sequence <= Cursor(Pruned(seen, QueueCursorsKept(seen, q)), r) <==> m.sequence <= Cursor(seen, r))
  {
    hide Capped;
    var kept := QueueCursorsKept(seen, q);
    forall m | m in q
      ensures m.sequence <= Cursor(Pruned(seen, kept), r) <==> m.sequence <= Cursor(seen, r)
    {
      var i :| 0 <= i < |q| && q[i] == m;
      assert q[0].sequence <= m.sequence;
    }
  }

  lemma LatestPruneUnnoticed(seen: map<Id, nat>, latest: nat, r: Id)
    requires latest >= 1
    requires var kept := LatestCursorsKept(seen, latest); r !in kept.Keys - Capped(kept).Keys
    ensures Cursor(Pruned(seen, LatestCursorsKept(seen, latest)), r) == latest <==> Cursor(seen, r) == latest
  {
    hide Capped;
  }

  lemma ReadLatestAlike(a: Channel, b: Channel, r: Id, step: Step)
    requires Sound(a) && Sound(b) && Alike(a, b, r) && a.config.LatestStyle()
    requires step.Read? && r !in CapVictims(a, step)
    ensures Alike(ReadLatest(a, step.reader, step.now, true), ReadLatest(b, step.reader, step.now, false), r)
  {
    hide Capped, Pruned;
    assert a.latest == Core(a).latest == b.latest && Core(a).counts == Core(b).counts && a.queue == [];
    assert a.config == Core(a).config == b.config;
    if !LatestExpired(a, step.now) && a.latest.Some? {
      var latest := a.latest.value.sequence;
      if LatestRead(a, step.reader, step.now) != [] {
        LatestPruneUnnoticed(a.latestSeen[step.reader := latest], latest, r);
      }
      assert Cursor(a.latestSeen[step.reader := latest], r) == if r == step.reader then latest else Cursor(a.latestSeen, r);
      assert Cursor(b.latestSeen[step.reader := latest], r) == if r == step.reader then latest else Cursor(b.latestSeen, r);
    }
  }

  lemma ReadQueueAlike(a: Channel, b: Channel, r: Id, step: Step)
    requires Sound(a) && Sound(b) && Alike(a, b, r) && !a.config.LatestStyle()
    requires step.Read? && r !in CapVictims(a, step)
    ensures Alike(ReadQueue(a, step.reader, step.now, step.max, true), ReadQueue(b, step.reader, step.now, step.max, false), r)
  {
    hide ReadQueue, QueueRead, Retained, Live, Beyond, CapVictims, Capped, Pruned;
    assert a.queue == Core(a).queue == b.queue && a.latest == Core(a).latest;
    assert a.config == Core(a).config == b.config;
    ReadQueueCore(a, b, step);
    if a.config.kind == Barrier && |a.queue| < a.config.capacity {
      BarrierWaits(a, step.reader, step.now, step.max, true);
      BarrierWaits(b, step.reader, step.now, step.max, false);
    } else {
      if r == step.reader { OutputAlike(a, b, r, step.now, step.max); }
      ReadSplits(a, step.reader, step.now, step.max);
      ReadQueueCursor(a, step, r);
      ReadQueueCursorKept(b, step, r);
    }
  }

  lemma ReadQueueCore(a: Channel, b: Channel, step: Step)
    requires Core(a) == Core(b) && step.Read?
    ensures Core(ReadQueue(a, step.reader, step.now, step.max, true)) == Core(ReadQueue(b, step.reader, step.now, step.max, false))
    ensures var a' := ReadQueue(a, step.reader, step.now, step.max, true);
      a'.latest == a.latest && a'.latestSeen == a.latestSeen
    ensures ReadQueue(b, step.reader, step.now, step.max, false).latestSeen == b.latestSeen
  {
    hide Live, Beyond, Pruned, QueueCursorsKept;
    assert a.queue == Core(a).queue == b.queue && Core(a).counts == Core(b).counts && a.config == Core(a).config == b.config;
    RetainedIgnoresCursors(a.config, a.queue, Cursor(a.queueSeen, step.reader), Cursor(b.queueSeen, step.reader), step.now, step.max);
  }

  /** The cursor of any spared reader after a read, as far as the retained messages can tell. */
  lemma ReadQueueCursor(s: Channel, step: Step, r: Id)
    requires Sound(s) && step.Read? && r !in CapVictims(s, step) && !s.config.LatestStyle()
    requires !(s.config.kind == Barrier && |s.queue| < s.config.capacity)
    ensures var s' := ReadQueue(s, step.reader, step.now, step.max, true);
      && (forall m :: m in s'.queue ==> m in s.queue)
      && forall m :: m in s'.queue ==> (m.sequence <= Cursor(s'.queueSeen, r) <==> m.sequence <= Cursor(QueueSeenAfter(s, step), r))
  {
    hide QueueRead, Live, Beyond, Capped, Pruned, QueueCursorsKept;
    ReadSplits(s, step.reader, step.now, step.max);
    PruneUnnoticed(QueueSeenAfter(s, step), Retained(s.config, s.queue, Cursor(s.queueSeen, step.reader), step.now, step.max), r);
  }

  lemma ReadQueueCursorKept(s: Channel, step: Step, r: Id)
    requires step.Read? && !(s.config.kind == Barrier && |s.queue| < s.config.capacity)
    ensures ReadQueue(s, step.reader, step.now, step.max, false).queueSeen == QueueSeenAfter(s, step)
  {
  }

  lemma RetainedIgnoresCursors(c: Config, q: seq<Message>, a: nat, b: nat, now: int, max: nat)
    ensures Retained(c, q, a, now, max) == Retained(c, q, b, now, max)
  {
  }

  lemma StepAlike(a: Channel, b: Channel, r: Id, step: Step)
    requires Sound(a) && Sound(b) && Alike(a, b, r) && r !in CapVictims(a, step)
    ensures Alike(Apply(a, step, true), Apply(b, step, false), r) && Given(a, step, r) == Given(b, step, r)
  {
    hide Sound, Alike, CapVictims, Published, ReadQueue, ReadLatest, Snapshot, Advanced, Output;
    AlikeConfig(a, b, r);
    match step {
      case Publish(p, now, stamp) => PublishAlike(a, b, r, p, now, stamp);
      case Refuse(dropped) => RefuseAlike(a, b, r, dropped);
      case Read(reader, now, max) =>
        OutputAlike(a, b, r, now, max);
        if a.config.LatestStyle() {
          ReadLatestAlike(a, b, r, step);
        } else {
          ReadQueueAlike(a, b, r, step);
        }
      case Look(now) => LookAlike(a, b, r, now);
      case Advance => AdvanceAlike(a, b, r);
    }
  }

  lemma AlikeConfig(a: Channel, b: Channel, r: Id)
    requires Alike(a, b, r)
    ensures a.config == b.config
  {
    assert Core(a).config == Core(b).config;
  }

  /** Over every run, a reader whom the cap never hit is given exactly what it would be given if no cursor were
      ever forgotten, and the channel itself is the same. */
  lemma {:induction false} ForgettingIsInvisible(config: Config, steps: seq<Step>, r: Id)
    requires config.capacity >= 1 && r !in Evicted(config, steps)
    ensures Received(config, steps, true, r) == Received(config, steps, false, r)
    ensures Alike(Run(config, steps, true), Run(config, steps, false), r)
  {
    hide Sound, Alike, Apply, CapVictims, Given;
    if steps == [] {
      NothingYetAlike(config, r);
    } else {
      var front, step := steps[..|steps| - 1], steps[|steps| - 1];
      ForgettingIsInvisible(config, front, r);
      EveryRunSound(config, front, true);
      EveryRunSound(config, front, false);
      StepAlike(Run(config, front, true), Run(config, front, false), r, step);
    }
  }

  lemma NothingYetAlike(config: Config, r: Id)
    ensures Alike(Opened(config), Opened(config), r)
  {
  }

  // What a reader is given when no cursor is forgotten.

  /** Nothing at or before the last message given can be given again, and the cursor separates what was given
      from what was not. */
  ghost predicate Tracks(s: Channel, got: seq<Message>, r: Id) {
    && Increasing(got) && (forall m :: m in got ==> InRange(s, m))
    && (if s.config.LatestStyle() then TracksLatest(s, got, r) else TracksQueue(s, got, r))
  }

  ghost predicate TracksLatest(s: Channel, got: seq<Message>, r: Id) {
    && Cursor(s.latestSeen, r) == (if got == [] then 0 else got[|got| - 1].sequence)
    && (got != [] && s.latest.Some? ==> got[|got| - 1].sequence <= s.latest.value.sequence)
    && (got != [] && s.pending.Some? ==> got[|got| - 1].sequence < s.pending.value.sequence)
  }

  ghost predicate TracksQueue(s: Channel, got: seq<Message>, r: Id) {
    if s.config.multiReader then
      && Cursor(s.queueSeen, r) == (if got == [] then 0 else got[|got| - 1].sequence)
      && forall m :: m in s.queue ==> (m in got <==> m.sequence <= Cursor(s.queueSeen, r))
    else
      forall m, g :: m in s.queue && g in got ==> g.sequence < m.sequence
  }

  lemma PublishTracks(s: Channel, p: Payload, now: int, stamp: Option<Stamp>, got: seq<Message>, r: Id)
    requires Sound(s) && Tracks(s, got, r)
    ensures Tracks(Published(s, p, now, stamp), got, r)
  {
    hide Published;
    PublishedCursors(s, p, now, stamp);
    PublishedContents(s, p, now, stamp);
    PublishedSlots(s, p, now, stamp);
    assert forall m :: m in got ==> m.sequence < s.next;
  }

  lemma PublishedSlots(s: Channel, p: Payload, now: int, stamp: Option<Stamp>)
    ensures var s' := Published(s, p, now, stamp);
      s'.next == s.next + 1 && (s'.pending == s.pending || (s'.pending.Some? && s'.pending.value.sequence == s.next))
  {
  }

  lemma ReadLatestTracks(s: Channel, reader: Id, now: int, got: seq<Message>, r: Id)
    requires Sound(s) && Tracks(s, got, r) && s.config.LatestStyle()
    ensures Tracks(ReadLatest(s, reader, now, false), got + (if reader == r then LatestRead(s, reader, now) else []), r)
  {
    hide QueueSound, LedgerSound, CursorsSound, Increasing, TracksQueue;
    var out := LatestRead(s, reader, now);
    if out == [] {
      assert got + out == got;
    } else if reader == r {
      assert got != [] ==> got[|got| - 1] in got;
      JoinOne(got, out[0]);
    } else {
      assert got + [] == got;
    }
  }

  lemma JoinOne(got: seq<Message>, m: Message)
    requires Increasing(got) && (got != [] ==> got[|got| - 1].sequence < m.sequence)
    ensures Increasing(got + [m])
  {
    IncreasingJoin(got, [m]);
  }

  lemma IncreasingJoin(a: seq<Message>, b: seq<Message>)
    requires Increasing(a) && Increasing(b)
    requires a != [] && b != [] ==> a[|a| - 1].sequence < b[0].sequence
    ensures Increasing(a + b)
  {
    forall i, j | 0 <= i < j < |a + b| ensures (a + b)[i].sequence < (a + b)[j].sequence {
      if i < |a| <= j {
        assert (a + b)[i].sequence <= a[|a| - 1].sequence && b[0].sequence <= (a + b)[j].sequence;
      }
    }
  }

  /** A batch is a run of the retained messages right after the cursor: what it skips is later than all of it. */
  lemma BatchIsNext(s: Channel, reader: Id, now: int, max: nat)
    requires Sound(s) && !s.config.LatestStyle()
    ensures var out := QueueRead(s, reader, now, max);
      && Increasing(out) && (forall m :: m in out ==> m in s.queue)
      && (s.config.multiReader ==> forall m :: m in out ==> m.sequence > Cursor(s.queueSeen, reader))
      && (s.config.multiReader && out != [] ==> forall m :: m in Live(s.config, s.queue, now) ==>
          (m in out <==> Cursor(s.queueSeen, reader) < m.sequence <= out[|out| - 1].sequence))
  {
    hide Live, Beyond;
    var cursor := Cursor(s.queueSeen, reader);
    var live := Live(s.config, s.queue, now);
    var wanted := Wanted(s.config, s.queue, cursor, now);
    LiveKeeps(s.config, s.queue, now);
    BeyondKeeps(live, cursor);
    BatchSplits(wanted, max);
    PrefixCut(wanted, |Batch(wanted, max)|);
  }

  lemma PrefixCut(q: seq<Message>, k: nat)
    requires Increasing(q) && k <= |q|
    ensures k > 0 ==> forall m :: m in q ==> (m in q[..k] <==> m.sequence <= q[k - 1].sequence)
  {
    if k > 0 {
      forall m | m in q ensures m in q[..k] <==> m.sequence <= q[k - 1].sequence {
        var i :| 0 <= i < |q| && q[i] == m;
        if i < k {
          assert q[..k][i] == m;
        } else {
          assert m !in q[..k];
        }
      }
    }
  }

  lemma ReadQueueTracksMulti(s: Channel, reader: Id, now: int, max: nat, got: seq<Message>, r: Id)
    requires Sound(s) && Tracks(s, got, r) && !s.config.LatestStyle() && s.config.multiReader
    requires !(s.config.kind == Barrier && |s.queue| < s.config.capacity)
    ensures Tracks(ReadQueue(s, reader, now, max, false), got + (if reader == r then QueueRead(s, reader, now, max) else []), r)
  {
    hide Live, Beyond, QueueRead, SlotsSound, LedgerSound, Pruned, QueueCursorsKept, TracksLatest;
    LiveKeeps(s.config, s.queue, now);
    BatchIsNext(s, reader, now, max);
    var s', out := ReadQueue(s, reader, now, max, false), QueueRead(s, reader, now, max);
    assert s'.queue == Live(s.config, s.queue, now);
    if reader == r && out != [] {
      assert out[0] in out && out[|out| - 1] in out && got != [] ==> got[|got| - 1] in got;
      IncreasingJoin(got, out);
    } else {
      assert got + [] == got;
    }
  }

  lemma ReadQueueTracksSingle(s: Channel, reader: Id, now: int, max: nat, got: seq<Message>, r: Id)
    requires Sound(s) && Tracks(s, got, r) && !s.config.LatestStyle() && !s.config.multiReader
    requires !(s.config.kind == Barrier && |s.queue| < s.config.capacity)
    ensures Tracks(ReadQueue(s, reader, now, max, false), got + (if reader == r then QueueRead(s, reader, now, max) else []), r)
  {
    hide Live, Beyond, QueueRead, Retained;
    ReadSplits(s, reader, now, max);
    LiveKeeps(s.config, s.queue, now);
    BatchIsNext(s, reader, now, max);
    var s', out := ReadQueue(s, reader, now, max, false), QueueRead(s, reader, now, max);
    SplitOrder(Live(s.config, s.queue, now), out, s'.queue);
    if reader == r && out != [] {
      assert out[0] in out && (got != [] ==> got[|got| - 1] in got);
      IncreasingJoin(got, out);
    } else {
      assert got + [] == got;
    }
  }

  lemma SplitOrder(q: seq<Message>, a: seq<Message>, b: seq<Message>)
    requires Increasing(q) && q == a + b
    ensures forall g, m :: g in a && m in b ==> g.sequence < m.sequence
  {
    forall g, m | g in a && m in b ensures g.sequence < m.sequence {
      var i :| 0 <= i < |a| && a[i] == g;
      var j :| 0 <= j < |b| && b[j] == m;
      assert q[i] == g && q[|a| + j] == m;
    }
  }

  lemma RefuseTracks(s: Channel, dropped: nat, got: seq<Message>, r: Id)
    requires Tracks(s, got, r)
    ensures Tracks(Tallied(s, dropped), got, r)
  {
  }

  lemma LookTracks(s: Channel, now: int, got: seq<Message>, r: Id)
    requires Sound(s) && Tracks(s, got, r)
    ensures Tracks(Snapshot(s, now), got, r)
  {
    hide Live;
    LiveKeeps(s.config, s.queue, now);
  }

  lemma AdvanceTracks(s: Channel, got: seq<Message>, r: Id)
    requires Sound(s) && Tracks(s, got, r)
    ensures Tracks(Advanced(s), got, r)
  {
  }

  lemma StepTracks(s: Channel, step: Step, got: seq<Message>, r: Id)
    requires Sound(s) && Tracks(s, got, r)
    ensures Tracks(Apply(s, step, false), got + Given(s, step, r), r)
  {
    hide Sound, Tracks, Published, ReadQueue, ReadLatest, Snapshot, Advanced, QueueRead, LatestRead;
    assert got + [] == got;
    match step {
      case Publish(p, now, stamp) => PublishTracks(s, p, now, stamp, got, r);
      case Refuse(dropped) => RefuseTracks(s, dropped, got, r);
      case Read(reader, now, max) =>
        if s.config.LatestStyle() {
          ReadLatestTracks(s, reader, now, got, r);
        } else if s.config.kind == Barrier && |s.queue| < s.config.capacity {
          BarrierWaits(s, reader, now, max, false);
        } else if s.config.multiReader {
          ReadQueueTracksMulti(s, reader, now, max, got, r);
        } else {
          ReadQueueTracksSingle(s, reader, now, max, got, r);
        }
      case Look(now) => LookTracks(s, now, got, r);
      case Advance => AdvanceTracks(s, got, r);
    }
  }

  lemma BarrierWaits(s: Channel, reader: Id, now: int, max: nat, prune: bool)
    requires s.config.kind == Barrier && |s.queue| < s.config.capacity
    ensures QueueRead(s, reader, now, max) == [] && ReadQueue(s, reader, now, max, prune) == s
  {
  }

  lemma {:induction false} EveryRunTracks(config: Config, steps: seq<Step>, r: Id)
    requires config.capacity >= 1
    ensures Tracks(Run(config, steps, false), Received(config, steps, false, r), r)
  {
    hide Sound, Apply, Given;
    if steps != [] {
      hide Tracks;
      var front, step := steps[..|steps| - 1], steps[|steps| - 1];
      EveryRunTracks(config, front, r);
      EveryRunSound(config, front, false);
      StepTracks(Run(config, front, false), step, Received(config, front, false, r), r);
    }
  }

  /** Over every run of a channel that forgets cursors as the bus does, a reader whom the cap never hit is given
      each message at most once and in strictly increasing sequence; on a multi-reader queue its cursor, as it
      stands, separates exactly the delivered from the undelivered messages still in the queue. */
  lemma EachReaderOnce(config: Config, steps: seq<Step>, r: Id)
    requires config.capacity >= 1 && r !in Evicted(config, steps)
    ensures Increasing(Received(config, steps, true, r))
    ensures var s := Run(config, steps, true);
      !config.LatestStyle() && config.multiReader ==>
        forall m :: m in s.queue ==> (m in Received(config, steps, true, r) <==> m.sequence <= Cursor(s.queueSeen, r))
  {
    hide Sound, CursorsSound, Run, Received;
    ForgettingIsInvisible(config, steps, r);
    EveryRunTracks(config, steps, r);
    EveryRunSound(config, steps, true);
    EveryRunSound(config, steps, false);
    assert Core(Run(config, steps, true)).queue == Core(Run(config, steps, false)).queue;
  }

  /** What is published on a latest-style channel is what every reader gets next: at once, or on a previous-tick
      channel when the epoch advances. On a queue it is the newest message. */
  lemma PublishedIsNext(s: Channel, p: Payload, now: int, stamp: Option<Stamp>, r: Id)
    requires Sound(s) && !Full(s)
    ensures var s', m := Published(s, p, now, stamp), Message(s.config.id, s.next, p, now, now, stamp);
      if !s.config.LatestStyle() then s'.queue != [] && s'.queue[|s'.queue| - 1] == m
      else LatestRead(if s.config.kind == PreviousTick then Advanced(s') else s', r, now) == [m]
  {
    assert !s.config.Expired(NextMessage(s, p, now, stamp), now);
  }

  // Previous-tick channels.

  /** The readable value of a previous-tick channel changes only when the epoch advances, or by expiring. */
  lemma PreviousTickHolds(s: Channel, step: Step, prune: bool)
    requires s.config.kind == PreviousTick
    ensures step.Advance? ==> Apply(s, step, prune).latest == (if s.pending.Some? then s.pending else s.latest)
    ensures step.Advance? ==> Apply(s, step, prune).pending == None
    ensures !step.Advance? ==> Apply(s, step, prune).latest in [s.latest, None]
    ensures Apply(s, step, prune).latest != s.latest && !step.Advance? ==> (step.Read? || step.Look?) && LatestExpired(s, step.now)
    ensures step.Publish? ==> Apply(s, step, prune).pending == Some(NextMessage(s, step.payload, step.now, step.stamp))
    ensures !step.Publish? && !step.Advance? ==> Apply(s, step, prune).pending == s.pending
  {
  }
}
