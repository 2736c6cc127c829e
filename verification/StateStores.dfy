/** The key-value state that components share: one writer per key, readable only from the next epoch on. */
module StateStores {
  import opened Ids
  import opened Messages

  type Key = (Id, Id)

  datatype Entry = Entry(current: Option<Payload>, pending: Option<Payload>, writer: Id, version: nat)

  type Entries = map<Key, Entry>

  /** A write by one writer; a seed is readable at once, a staged write from the next commit on. */
  datatype Write = Write(key: Key, writer: Id, payload: Option<Payload>)

  datatype Step = Seed(write: Write) | Stage(write: Write) | Commit

  predicate WellFormed(w: Write) {
    w.key.0 != "" && w.key.1 != "" && w.writer != "" && w.payload.Some?
  }

  predicate Owned(entries: Entries, w: Write) {
    w.key in entries ==> entries[w.key].writer == "" || entries[w.key].writer == w.writer
  }

  predicate Allowed(entries: Entries, w: Write) {
    WellFormed(w) && Owned(entries, w)
  }

  function EntryOf(entries: Entries, k: Key): Entry {
    if k in entries then entries[k] else Entry(None, None, "", 0)
  }

  function CommittedEntry(e: Entry): Entry {
    if e.pending.None? then e else Entry(e.pending, None, e.writer, e.version + 1)
  }

  function CommittedEntries(entries: Entries): Entries {
    map k | k in entries :: CommittedEntry(entries[k])
  }

  /** What one step does to the store. */
  function After(entries: Entries, step: Step): Entries {
    match step
    case Seed(w) =>
      if !Allowed(entries, w) then entries
      else
        var e := EntryOf(entries, w.key);
        entries[w.key := e.(current := w.payload, pending := None, writer := w.writer, version := e.version + 1)]
    case Stage(w) =>
      if !Allowed(entries, w) then entries
      else entries[w.key := EntryOf(entries, w.key).(pending := w.payload, writer := w.writer)]
    case Commit => CommittedEntries(entries)
  }

  class RuntimeStateStore {
    var entries: Entries
    var epoch: nat
    var stagedWrites: nat
    var committedWrites: nat
    var rejectedWrites: nat

    constructor ()
      ensures entries == map[] && epoch == 0 && stagedWrites == 0 && committedWrites == 0 && rejectedWrites == 0
    {
      entries, epoch, stagedWrites, committedWrites, rejectedWrites := map[], 0, 0, 0, 0;
    }

    method ValidateWrite(w: Write) returns (accepted: bool)
      modifies this`rejectedWrites
      ensures accepted == Allowed(entries, w)
      ensures rejectedWrites == old(rejectedWrites) + if accepted then 0 else 1
    {
      if w.key.0 == "" || w.key.1 == "" || w.writer == "" || w.payload.None? {
        rejectedWrites := rejectedWrites + 1;
        return false;
      }
      if w.key !in entries || entries[w.key].writer == "" || entries[w.key].writer == w.writer {
        return true;
      }
      rejectedWrites := rejectedWrites + 1;
      accepted := false;
    }

    method SeedValue(w: Write) returns (accepted: bool)
      modifies this`entries, this`rejectedWrites
      ensures accepted == Allowed(old(entries), w) && entries == After(old(entries), Seed(w))
    {
      accepted := ValidateWrite(w);
      if accepted {
        var e := EntryOf(entries, w.key);
        entries := entries[w.key := Entry(w.payload, None, w.writer, e.version + 1)];
      }
    }

    method StageWrite(w: Write) returns (accepted: bool)
      modifies this`entries, this`rejectedWrites, this`stagedWrites
      ensures accepted == Allowed(old(entries), w) && entries == After(old(entries), Stage(w))
      ensures stagedWrites == old(stagedWrites) + if accepted then 1 else 0
    {
      accepted := ValidateWrite(w);
      if accepted {
        entries := entries[w.key := EntryOf(entries, w.key).(pending := w.payload, writer := w.writer)];
        stagedWrites := stagedWrites + 1;
      }
    }

    method CommitEpochBoundary() returns (committed: nat)
      modifies this`entries, this`epoch, this`committedWrites
      ensures entries == After(old(entries), Commit) && epoch == old(epoch) + 1 && committedWrites == old(committedWrites) + committed
      ensures committed == |set k | k in old(entries) && old(entries)[k].pending.Some?|
    {
      committed := 0;
      var todo := entries.Keys;
      ghost var done: set<Key> := {};
      while todo != {}
        invariant todo <= old(entries).Keys == entries.Keys && epoch == old(epoch) && committedWrites == old(committedWrites)
        invariant forall k :: k in entries ==> entries[k] == if k in todo then old(entries)[k] else CommittedEntry(old(entries)[k])
        invariant done == (set k | k in old(entries) && k !in todo && old(entries)[k].pending.Some?) && committed == |done|
      {
        var k :| k in todo;
        if entries[k].pending.Some? {
          entries := entries[k := Entry(entries[k].pending, None, entries[k].writer, entries[k].version + 1)];
          committed := committed + 1;
          done := done + {k};
        }
        todo := todo - {k};
      }
      assert done == set k | k in old(entries) && old(entries)[k].pending.Some?;
      epoch := epoch + 1;
      committedWrites := committedWrites + committed;
    }

    method Read(k: Key) returns (payload: Option<Payload>)
      ensures payload == EntryOf(entries, k).current
    {
      payload := if k in entries then entries[k].current else None;
    }
  }

  // What a reader sees, told from the history alone.

  ghost function Run(steps: seq<Step>): Entries {
    if steps == [] then map[] else After(Run(steps[..|steps| - 1]), steps[|steps| - 1])
  }

  /** The writer of a key is whoever first wrote it. */
  function Owner(steps: seq<Step>, k: Key): Id {
    if steps == [] then ""
    else
      var before, step := Owner(steps[..|steps| - 1], k), steps[|steps| - 1];
      if before == "" && !step.Commit? && WellFormed(step.write) && step.write.key == k then step.write.writer else before
  }

  /** The last value its owner wrote to a key. */
  function Last(steps: seq<Step>, k: Key, owner: Id): Option<Payload> {
    if steps == [] then None
    else
      var step := steps[|steps| - 1];
      if !step.Commit? && WellFormed(step.write) && step.write.key == k && step.write.writer == owner then step.write.payload
      else Last(steps[..|steps| - 1], k, owner)
  }

  /** What can be read: the last value written before the last commit, or a value seeded after it. */
  function Visible(steps: seq<Step>, k: Key, owner: Id): Option<Payload> {
    if steps == [] then None
    else
      var step := steps[|steps| - 1];
      if step.Commit? then Last(steps, k, owner)
      else if step.Seed? && WellFormed(step.write) && step.write.key == k && step.write.writer == owner then step.write.payload
      else Visible(steps[..|steps| - 1], k, owner)
  }

  /** The owner never changes once there is one. */
  lemma {:induction false} OwnerStays(steps: seq<Step>, n: nat, k: Key)
    requires n <= |steps| && Owner(steps[..n], k) != ""
    ensures Owner(steps, k) == Owner(steps[..n], k)
  {
    if n == |steps| {
      assert steps[..n] == steps;
    } else {
      assert steps[..|steps| - 1][..n] == steps[..n];
      OwnerStays(steps[..|steps| - 1], n, k);
    }
  }

  lemma {:induction false} NoOwnerNoWrites(steps: seq<Step>, k: Key, owner: Id)
    requires Owner(steps, k) == ""
    ensures Last(steps, k, owner) == None && Visible(steps, k, owner) == None
  {
    if steps != [] {
      NoOwnerNoWrites(steps[..|steps| - 1], k, owner);
    }
  }

  /** Over every run, the store holds exactly what the history says: a key's writer is its first one, a reader
      sees the last write before the last commit, and what is pending is the last write since. */
  lemma {:induction false} StoreTellsHistory(steps: seq<Step>, k: Key)
    ensures var e, owner := EntryOf(Run(steps), k), Owner(steps, k);
      && e.writer == owner && e.current == Visible(steps, k, owner)
      && (if e.pending.Some? then e.pending else e.current) == Last(steps, k, owner)
  {
    if steps != [] {
      var front, step := steps[..|steps| - 1], steps[|steps| - 1];
      StoreTellsHistory(front, k);
      if Owner(front, k) == "" && Owner(steps, k) != "" {
        NoOwnerNoWrites(front, k, Owner(steps, k));
        NoOwnerNoWrites(front, k, "");
      }
    }
  }

  /** A write by anyone but the owner is refused and changes nothing. */
  lemma OthersAreRefused(steps: seq<Step>, w: Write)
    requires Owner(steps, w.key) != "" && w.writer != Owner(steps, w.key)
    ensures After(Run(steps), Stage(w)) == Run(steps) == After(Run(steps), Seed(w))
  {
    StoreTellsHistory(steps, w.key);
  }
}
