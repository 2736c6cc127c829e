/** The buffer pool: who owns which buffer, and how many bytes that makes. */
module BufferPools {

  const SIZE_MAX: nat := 0xFFFF_FFFF_FFFF_FFFF

  /** Rounds up to a multiple of the alignment, unless that would not fit a size. */
  function AlignUp(value: nat, alignment: nat): (r: nat)
    ensures r >= value
    ensures alignment > 1 && value <= SIZE_MAX - alignment ==> r % alignment == 0 && r < value + alignment
  {
    if alignment <= 1 || value == 0 then value
    else
      var remainder := value % alignment;
      if remainder == 0 then value
      else if value > SIZE_MAX - (alignment - remainder) then value
      else
        RoundedUp(value, alignment);
        value + (alignment - remainder)
  }

  lemma RoundedUp(value: nat, alignment: nat)
    requires alignment > 1
    ensures (value + (alignment - value % alignment)) % alignment == 0
  {
    var q, r := value / alignment, value % alignment;
    assert value + (alignment - r) == alignment * (q + 1);
    MultipleHasNoRemainder(alignment, q + 1);
  }

  lemma MultipleHasNoRemainder(n: nat, k: nat)
    requires n > 0
    ensures (n * k) % n == 0
  {
    var q, r := (n * k) / n, (n * k) % n;
    var d := k - q;
    assert n * d == r;
    assert d < 1 by {
      if d >= 1 { TimesAtLeast(n, d); }
    }
    assert d > -1 by {
      if d <= -1 { TimesAtMost(n, d); }
    }
  }

  lemma TimesAtLeast(n: nat, d: nat)
    requires d >= 1
    ensures n * d >= n
  {
  }

  lemma TimesAtMost(n: nat, d: int)
    requires d <= -1
    ensures n * d + n <= 0
  {
  }

  /** Subtraction that stops at zero. */
  function Less(a: nat, b: nat): nat {
    if a >= b then a - b else 0
  }

  class SharedBuffer {
    const size: nat

    constructor (size: nat)
      ensures this.size == size
    {
      this.size := size;
    }
  }

  datatype PoolConfig = PoolConfig(maxBytes: nat, alignment: nat, fixedBlockSize: nat, bucketSizes: seq<nat>)

  datatype Stats = Stats(allocCount: nat, reuseCount: nat, loanCount: nat, releaseCount: nat, detachedCount: nat,
                         exhaustedCount: nat, activeCount: nat, activeBytes: nat, bytesOwned: nat, bytesAllocated: nat,
                         availableCount: nat, bytesAvailable: nat, highWatermark: nat)

  function Bytes(buffers: seq<SharedBuffer>): nat {
    if buffers == [] then 0 else Bytes(buffers[..|buffers| - 1]) + buffers[|buffers| - 1].size
  }

  lemma {:induction false} BytesConcat(a: seq<SharedBuffer>, b: seq<SharedBuffer>)
    ensures Bytes(a + b) == Bytes(a) + Bytes(b)
  {
    if b == [] {
      assert a + b == a;
    } else {
      assert (a + b)[..|a + b| - 1] == a + b[..|b| - 1];
      BytesConcat(a, b[..|b| - 1]);
    }
  }

  function Without(s: seq<SharedBuffer>, k: nat): seq<SharedBuffer>
    requires k < |s|
  {
    s[..k] + s[k + 1..]
  }

  lemma BytesWithout(s: seq<SharedBuffer>, k: nat)
    requires k < |s|
    ensures Bytes(Without(s, k)) == Bytes(s) - s[k].size && s[k].size <= Bytes(s)
  {
    hide Bytes;
    var front, back := s[..k], s[k + 1..];
    assert s == front + ([s[k]] + back);
    BytesConcat(front, [s[k]] + back);
    BytesConcat([s[k]], back);
    BytesConcat(front, back);
    BytesOne(s[k]);
  }

  lemma MultisetWithout(s: seq<SharedBuffer>, k: nat)
    requires k < |s|
    ensures multiset(s) == multiset(Without(s, k)) + multiset{s[k]}
  {
    assert s == s[..k] + [s[k]] + s[k + 1..];
  }

  /** No buffer occurs twice, neither within one of the two lists nor across them. */
  ghost predicate NoneTwice(available: seq<SharedBuffer>, loaned: seq<SharedBuffer>) {
    forall b :: b in multiset(available) + multiset(loaned) ==> (multiset(available) + multiset(loaned))[b] == 1
  }

  lemma NoneTwiceKept(a: seq<SharedBuffer>, l: seq<SharedBuffer>, a': seq<SharedBuffer>, l': seq<SharedBuffer>)
    requires NoneTwice(a, l) && multiset(a') + multiset(l') <= multiset(a) + multiset(l)
    ensures NoneTwice(a', l')
  {
    forall b | b in multiset(a') + multiset(l') ensures (multiset(a') + multiset(l'))[b] == 1 {
      assert b in multiset(a) + multiset(l);
    }
  }

  lemma NoneTwiceAdded(a: seq<SharedBuffer>, l: seq<SharedBuffer>, added: SharedBuffer)
    requires NoneTwice(a, l) && added !in a && added !in l
    ensures NoneTwice(a, l + [added])
  {
    assert multiset(l + [added]) == multiset(l) + multiset{added};
    forall b | b in multiset(a) + multiset(l + [added]) ensures (multiset(a) + multiset(l + [added]))[b] == 1 {
      assert b == added || b in multiset(a) + multiset(l);
    }
  }

  /** The smallest bucket that fits, if the buckets have one. */
  ghost predicate SmallestFit(buckets: seq<nat>, requested: nat, chosen: nat) {
    chosen in buckets && chosen >= requested && forall b :: b in buckets && b >= requested ==> chosen <= b
  }

  method ChooseBucket(buckets: seq<nat>, requested: nat) returns (chosen: nat)
    ensures if forall b :: b in buckets ==> b < requested then chosen == requested else SmallestFit(buckets, requested, chosen)
  {
    if buckets == [] {
      return requested;
    }
    var best := 0;
    for k := 1 to |buckets|
      invariant best < k <= |buckets|
      invariant buckets[best] >= requested ==> forall j :: 0 <= j < k && buckets[j] >= requested ==> buckets[best] <= buckets[j]
      invariant buckets[best] < requested ==> forall j :: 0 <= j < k ==> buckets[j] < requested
    {
      var lhsFits, rhsFits := buckets[k] >= requested, buckets[best] >= requested;
      if (if lhsFits != rhsFits then lhsFits else buckets[k] < buckets[best]) {
        best := k;
      }
    }
    assert buckets[best] in buckets;
    chosen := if buckets[best] >= requested then buckets[best] else requested;
  }

  /** The size of a new buffer: the smallest fitting bucket, or the fixed block, or what was asked for, aligned. */
  ghost predicate IsAllocationSize(config: PoolConfig, requested: nat, size: nat) {
    if config.bucketSizes == [] then
      size == AlignUp(if config.fixedBlockSize > requested then config.fixedBlockSize else requested, config.alignment)
    else if forall b :: b in config.bucketSizes ==> b < requested then
      size == AlignUp(requested, config.alignment)
    else
      exists chosen: nat :: SmallestFit(config.bucketSizes, requested, chosen) && size == AlignUp(chosen, config.alignment)
  }

  lemma AllocationSizeUnique(config: PoolConfig, requested: nat, a: nat, b: nat)
    requires IsAllocationSize(config, requested, a) && IsAllocationSize(config, requested, b)
    ensures a == b
  {
  }

  /** The first buffer of the list that is large enough is number `k`; none is if `k` is the length. */
  ghost predicate FirstFit(available: seq<SharedBuffer>, size: nat, k: nat) {
    && k <= |available|
    && (k < |available| ==> available[k].size >= size)
    && forall j :: 0 <= j < k ==> available[j].size < size
  }

  class BufferPool {
    const config: PoolConfig
    var available: seq<SharedBuffer>
    var stats: Stats
    ghost var loaned: seq<SharedBuffer>
    /** The one frame that holds each loaned buffer. */
    ghost var holders: map<SharedBuffer, LoanedFrame>

    ghost predicate Counted()
      reads this
    {
      && stats.loanCount == stats.allocCount + stats.reuseCount
      && stats.loanCount == stats.activeCount + stats.releaseCount + stats.detachedCount
      && stats.activeCount == |loaned| && stats.availableCount == |available|
    }

    ghost predicate Weighed()
      reads this
    {
      && stats.activeBytes == Bytes(loaned) <= stats.highWatermark
      && stats.bytesAvailable == Bytes(available)
      && stats.bytesOwned == Bytes(available) + Bytes(loaned)
      && (config.maxBytes != 0 ==> stats.bytesOwned <= config.maxBytes)
    }

    /** Every buffer is either available or loaned to exactly one frame, all counters and byte totals are
        exact, and the pool is within its budget. */
    ghost predicate Valid()
      reads this
    {
      NoneTwice(available, loaned) && holders.Keys == (set b | b in loaned) && Counted() && Weighed()
    }

    constructor (config: PoolConfig)
      ensures Valid() && available == [] && loaned == [] && stats == Stats(0, 0, 0, 0, 0, 0, 0, 0, 0, 0, 0, 0, 0)
      ensures this.config == config.(alignment := if config.alignment == 0 then 1 else config.alignment)
    {
      this.config := config.(alignment := if config.alignment == 0 then 1 else config.alignment);
      available, loaned, holders := [], [], map[];
      stats := Stats(0, 0, 0, 0, 0, 0, 0, 0, 0, 0, 0, 0, 0);
    }

    method AllocationSize(requested: nat) returns (size: nat)
      ensures IsAllocationSize(config, requested, size) && size >= requested
    {
      var chosen := requested;
      if config.bucketSizes != [] {
        chosen := ChooseBucket(config.bucketSizes, requested);
      } else if config.fixedBlockSize > requested {
        chosen := config.fixedBlockSize;
      }
      size := AlignUp(chosen, config.alignment);
    }

    predicate CanAllocate(size: nat)
      reads this
      ensures Valid() ==> CanAllocate(size) == (config.maxBytes == 0 || Bytes(available) + Bytes(loaned) + size <= config.maxBytes)
    {
      config.maxBytes == 0 || (stats.bytesOwned <= config.maxBytes && size <= config.maxBytes - stats.bytesOwned)
    }

    method RefreshAvailableStats()
      modifies this`stats
      ensures stats == old(stats).(availableCount := |available|, bytesAvailable := Bytes(available))
    {
      var total := 0;
      for k := 0 to |available|
        invariant total == Bytes(available[..k])
      {
        total := total + available[k].size;
        assert available[..k + 1][..k] == available[..k];
      }
      assert available[..|available|] == available;
      stats := stats.(availableCount := |available|, bytesAvailable := total);
    }

    method FindReusable(size: nat) returns (k: nat)
      ensures FirstFit(available, size, k)
    {
      k := 0;
      while k < |available| && available[k].size < size
        invariant k <= |available|
        invariant forall j :: 0 <= j < k ==> available[j].size < size
      {
        k := k + 1;
      }
    }

    /** Loans the first available buffer that is large enough, else a new one if the budget allows it. The frame
        is empty exactly when nothing fits and a new buffer would exceed the budget; then only the exhaustion
        count changes. */
    method LoanFrame(size: nat) returns (frame: LoanedFrame)
      requires Valid()
      modifies this
      ensures Valid() && fresh(frame) && frame.Valid()
      ensures frame.pool == if old(Exhausted(size)) then null else this
      ensures frame.pool == null ==> frame.buffer == null
      ensures frame.pool == null ==> available == old(available) && loaned == old(loaned) && holders == old(holders)
      ensures frame.pool == null ==> stats == old(stats).(exhaustedCount := old(stats.exhaustedCount) + 1)
      ensures frame.pool == this ==> frame.buffer.size >= size && frame.buffer !in old(holders)
      ensures frame.pool == this ==> loaned == old(loaned) + [frame.buffer] && holders == old(holders)[frame.buffer := frame]
      ensures frame.pool == this && FitsAny(old(available), size) ==> LoanedFirstFit(old(available), size, available, frame.buffer)
      ensures frame.pool == this && !FitsAny(old(available), size) ==> available == old(available) && fresh(frame.buffer)
      ensures frame.pool == this && !FitsAny(old(available), size) ==> IsAllocationSize(config, size, frame.buffer.size)
      ensures frame.pool == this ==> LoanStarted(old(stats), stats, frame.buffer.size)
    {
      hide Bytes, NoneTwice, IsAllocationSize, FitsAny, LoanStarted;
      var k := FindReusable(size);
      FitsAnyIff(available, size, k);
      if k == |available| {
        var newSize := AllocationSize(size);
        ExhaustedIff(size, newSize);
        if !CanAllocate(newSize) {
          stats := stats.(exhaustedCount := stats.exhaustedCount + 1);
          RefreshAvailableStats();
          frame := new LoanedFrame.Empty();
        } else {
          frame := LoanNew(newSize);
        }
      } else {
        frame := LoanAvailable(size, k);
      }
    }

    /** The branch that makes a new buffer. */
    method LoanNew(newSize: nat) returns (frame: LoanedFrame)
      requires Valid() && CanAllocate(newSize)
      modifies this
      ensures Valid() && fresh(frame) && frame.Valid() && frame.pool == this && fresh(frame.buffer)
      ensures frame.buffer.size == newSize && available == old(available)
      ensures loaned == old(loaned) + [frame.buffer] && holders == old(holders)[frame.buffer := frame]
      ensures LoanStarted(old(stats), stats, newSize)
    {
      hide Bytes, NoneTwice;
      var buffer := new SharedBuffer(newSize);
      stats := stats.(allocCount := stats.allocCount + 1, bytesAllocated := stats.bytesAllocated + newSize,
                      bytesOwned := stats.bytesOwned + newSize);
      NoneTwiceAdded(available, loaned, buffer);
      frame := Lend(buffer);
    }

    /** The branch that reuses an available buffer. */
    method LoanAvailable(size: nat, k: nat) returns (frame: LoanedFrame)
      requires Valid() && FirstFit(available, size, k) && k < |available|
      modifies this
      ensures Valid() && fresh(frame) && frame.Valid() && frame.pool == this && frame.buffer == old(available)[k]
      ensures available == Without(old(available), k) && frame.buffer !in old(holders)
      ensures loaned == old(loaned) + [frame.buffer] && holders == old(holders)[frame.buffer := frame]
      ensures LoanStarted(old(stats), stats, frame.buffer.size)
    {
      hide Bytes, NoneTwice;
      var buffer := available[k];
      MultisetWithout(available, k);
      BytesWithout(available, k);
      AvailableNotLoaned(available, loaned, k);
      available := Without(available, k);
      stats := stats.(reuseCount := stats.reuseCount + 1);
      assert multiset(loaned + [buffer]) == multiset(loaned) + multiset{buffer};
      NoneTwiceKept(old(available), loaned, available, loaned + [buffer]);
      frame := Lend(buffer);
    }

    /** The bookkeeping common to both branches. */
    method Lend(buffer: SharedBuffer) returns (frame: LoanedFrame)
      requires NoneTwice(available, loaned + [buffer]) && holders.Keys == (set b | b in loaned)
      requires stats.loanCount + 1 == stats.allocCount + stats.reuseCount
      requires stats.loanCount == stats.activeCount + stats.releaseCount + stats.detachedCount
      requires stats.activeCount == |loaned| && stats.activeBytes == Bytes(loaned) <= stats.highWatermark
      requires stats.bytesOwned == Bytes(available) + Bytes(loaned) + buffer.size
      requires config.maxBytes != 0 ==> stats.bytesOwned <= config.maxBytes
      modifies this
      ensures Valid() && fresh(frame) && frame.Valid() && frame.pool == this && frame.buffer == buffer
      ensures available == old(available)
      ensures loaned == old(loaned) + [buffer] && holders == old(holders)[buffer := frame]
      ensures LoanStarted(old(stats), stats, buffer.size)
    {
      hide Bytes, NoneTwice;
      stats := stats.(loanCount := stats.loanCount + 1, activeCount := stats.activeCount + 1,
                      activeBytes := stats.activeBytes + buffer.size);
      stats := stats.(highWatermark := if stats.highWatermark >= stats.activeBytes then stats.highWatermark else stats.activeBytes);
      RefreshAvailableStats();
      BytesConcat(loaned, [buffer]);
      BytesOne(buffer);
      frame := new LoanedFrame.Loan(this, buffer);
      loaned := loaned + [buffer];
      holders := holders[buffer := frame];
    }

    /** No available buffer fits, and a new one would go over the budget. */
    ghost predicate Exhausted(size: nat)
      reads this
    {
      !FitsAny(available, size) && exists n: nat :: IsAllocationSize(config, size, n) && !CanAllocate(n)
    }

    lemma ExhaustedIff(size: nat, newSize: nat)
      requires IsAllocationSize(config, size, newSize) && !FitsAny(available, size)
      ensures Exhausted(size) <==> !CanAllocate(newSize)
    {
      hide IsAllocationSize;
      forall n: nat | IsAllocationSize(config, size, n) ensures n == newSize {
        AllocationSizeUnique(config, size, n, newSize);
      }
    }

    /** Strikes a buffer off the loans. */
    ghost method Drop(buffer: SharedBuffer) returns (k: nat)
      requires holders.Keys == (set b | b in loaned) && buffer in holders && NoneTwice(available, loaned)
      modifies this`loaned, this`holders
      ensures k < |old(loaned)| && old(loaned)[k] == buffer && loaned == Without(old(loaned), k)
      ensures multiset(old(loaned)) == multiset(loaned) + multiset{buffer}
      ensures Bytes(loaned) == Bytes(old(loaned)) - buffer.size
      ensures holders == old(holders) - {buffer} && holders.Keys == (set b | b in loaned)
    {
      k :| 0 <= k < |loaned| && loaned[k] == buffer;
      MultisetWithout(loaned, k);
      BytesWithout(loaned, k);
      assert (multiset(available) + multiset(loaned))[buffer] == 1;
      loaned := Without(loaned, k);
      holders := holders - {buffer};
      forall b ensures b in old(loaned) && b != buffer <==> b in loaned {
        assert b in multiset(old(loaned)) <==> b in old(loaned);
        assert b in multiset(loaned) <==> b in loaned;
      }
    }

    /** A loan changes hands. */
    ghost method Rehold(buffer: SharedBuffer, holder: LoanedFrame)
      requires Valid() && buffer in holders
      modifies this`holders
      ensures Valid() && holders == old(holders)[buffer := holder]
    {
      holders := holders[buffer := holder];
      assert holders.Keys == old(holders).Keys;
    }

    /** Takes back a loaned buffer. The subtractions that guard against going below zero never do. */
    method ReturnBuffer(buffer: SharedBuffer)
      requires Valid() && buffer in holders
      modifies this
      ensures Valid()
      ensures available == old(available) + [buffer] && holders == old(holders) - {buffer}
      ensures multiset(loaned) == old(multiset(loaned)) - multiset{buffer}
      ensures LoanEnded(old(stats), stats, buffer.size) && stats.releaseCount == old(stats.releaseCount) + 1
      ensures stats.bytesOwned == old(stats.bytesOwned)
    {
      hide Bytes, NoneTwice;
      ghost var k := Drop(buffer);
      available := available + [buffer];
      NoneTwiceKept(old(available), old(loaned), available, loaned);
      BytesConcat(old(available), [buffer]);
      BytesOne(buffer);
      stats := stats.(releaseCount := stats.releaseCount + 1,
                      activeCount := Less(stats.activeCount, 1),
                      activeBytes := Less(stats.activeBytes, buffer.size));
      RefreshAvailableStats();
    }

    /** Gives a loaned buffer up for good: the pool no longer owns it. */
    method MarkDetached(buffer: SharedBuffer)
      requires Valid() && buffer in holders
      modifies this
      ensures Valid()
      ensures available == old(available) && holders == old(holders) - {buffer}
      ensures multiset(loaned) == old(multiset(loaned)) - multiset{buffer}
      ensures LoanEnded(old(stats), stats, buffer.size) && stats.detachedCount == old(stats.detachedCount) + 1
      ensures stats.bytesOwned + buffer.size == old(stats.bytesOwned)
    {
      hide Bytes, NoneTwice;
      ghost var k := Drop(buffer);
      NoneTwiceKept(available, old(loaned), available, loaned);
      stats := stats.(detachedCount := stats.detachedCount + 1,
                      activeCount := Less(stats.activeCount, 1),
                      activeBytes := Less(stats.activeBytes, buffer.size),
                      bytesOwned := Less(stats.bytesOwned, buffer.size));
      RefreshAvailableStats();
    }
  }

  ghost predicate FitsAny(available: seq<SharedBuffer>, size: nat) {
    exists b :: b in available && b.size >= size
  }

  lemma FitsAnyIff(available: seq<SharedBuffer>, size: nat, k: nat)
    requires FirstFit(available, size, k)
    ensures FitsAny(available, size) <==> k < |available|
  {
    if k < |available| {
      assert available[k] in available;
    }
  }

  lemma AvailableNotLoaned(available: seq<SharedBuffer>, loaned: seq<SharedBuffer>, k: nat)
    requires NoneTwice(available, loaned) && k < |available|
    ensures available[k] !in loaned
  {
    var b := available[k];
    assert b in multiset(available) && (multiset(available) + multiset(loaned))[b] == 1;
    assert b !in multiset(loaned);
  }

  /** The loan counters gain exactly one loan, of exactly this size, and the high-watermark follows. */
  ghost predicate LoanStarted(before: Stats, after: Stats, size: nat) {
    && after.activeCount == before.activeCount + 1 && after.activeBytes == before.activeBytes + size
    && after.loanCount == before.loanCount + 1 && after.exhaustedCount == before.exhaustedCount
    && after.releaseCount == before.releaseCount && after.detachedCount == before.detachedCount
    && after.highWatermark == if before.highWatermark >= after.activeBytes then before.highWatermark else after.activeBytes
  }

  /** The loan counters lose exactly one loan, of exactly this size. */
  ghost predicate LoanEnded(before: Stats, after: Stats, size: nat) {
    && after.activeCount + 1 == before.activeCount && after.activeBytes + size == before.activeBytes
    && after.loanCount == before.loanCount && after.highWatermark == before.highWatermark
    && after.releaseCount + after.detachedCount == before.releaseCount + before.detachedCount + 1
  }

  /** What a reuse does to the list of available buffers. */
  ghost predicate LoanedFirstFit(before: seq<SharedBuffer>, size: nat, after: seq<SharedBuffer>, buffer: SharedBuffer) {
    exists k: nat :: FirstFit(before, size, k) && k < |before| && before[k] == buffer && after == Without(before, k)
  }

  lemma BytesOne(b: SharedBuffer)
    ensures Bytes([b]) == b.size
  {
    assert [b][..0] == [];
  }

  /** One owner's handle on a loaned buffer. */
  class LoanedFrame {
    var pool: BufferPool?
    var buffer: SharedBuffer?

    /** A frame with a pool is the one holder of its buffer in that pool. */
    ghost predicate Valid()
      reads this, pool
    {
      pool != null ==> buffer != null && buffer in pool.holders && pool.holders[buffer] == this
    }

    constructor Empty()
      ensures pool == null && buffer == null
    {
      pool, buffer := null, null;
    }

    constructor Loan(pool: BufferPool, buffer: SharedBuffer)
      ensures this.pool == pool && this.buffer == buffer
    {
      this.pool, this.buffer := pool, buffer;
    }

    /** Gives the buffer back. Releasing an empty frame does nothing. */
    method Release()
      requires Valid() && (pool != null ==> pool.Valid())
      modifies this, pool
      ensures pool == null && buffer == null
      ensures old(pool) != null ==> Returned(old(pool), old(buffer))
    {
      if pool != null && buffer != null {
        pool.ReturnBuffer(buffer);
      }
      pool, buffer := null, null;
    }

    /** What the pool and its other holders see of a release. */
    twostate predicate Returned(home: BufferPool, buffer: SharedBuffer)
      reads home
    {
      && home.Valid() && home.holders == old(home.holders) - {buffer} && GivenBack(home, buffer)
    }

    /** The buffer is available again, behind the others, and the counters lose exactly this loan. */
    twostate predicate GivenBack(home: BufferPool, buffer: SharedBuffer)
      reads home
    {
      && home.available == old(home.available) + [buffer]
      && multiset(home.loaned) == old(multiset(home.loaned)) - multiset{buffer}
      && LoanEnded(old(home.stats), home.stats, buffer.size) && home.stats.bytesOwned == old(home.stats.bytesOwned)
      && home.stats.releaseCount == old(home.stats.releaseCount) + 1
    }

    /** Takes the buffer out of the pool's ownership for good and hands it to the caller. */
    method Detach() returns (view: SharedBuffer?)
      requires Valid() && (pool != null ==> pool.Valid())
      modifies this, pool
      ensures pool == null && buffer == null && view == old(buffer)
      ensures old(pool) != null ==> Detached(old(pool), old(buffer))
    {
      if pool != null && buffer != null {
        pool.MarkDetached(buffer);
      }
      view := buffer;
      pool, buffer := null, null;
    }

    twostate predicate Detached(home: BufferPool, buffer: SharedBuffer)
      reads home
    {
      && home.Valid() && home.available == old(home.available)
      && home.holders == old(home.holders) - {buffer}
      && home.stats.bytesOwned + buffer.size == old(home.stats.bytesOwned)
      && home.stats.detachedCount == old(home.stats.detachedCount) + 1
    }

    /** Takes over another frame's loan after ending its own: there is one holder before and one after. The old
        loan's pool takes its buffer back, and the pool of the loan taken over sees a new holder and nothing else. */
    method MoveFrom(other: LoanedFrame)
      requires Valid() && (pool != null ==> pool.Valid())
      requires other.Valid() && (other.pool != null ==> other.pool.Valid())
      modifies this, other, pool, other.pool
      ensures Valid() && other.Valid()
      ensures other == this ==> pool == old(pool) && buffer == old(buffer)
      ensures other != this ==> pool == old(other.pool) && buffer == old(other.buffer)
      ensures other != this ==> other.pool == null && other.buffer == null
      ensures other != this && pool != null ==> pool.Valid() && pool.holders[buffer] == this
      ensures other != this && old(pool) != null ==> old(pool).Valid() && GivenBack(old(pool), old(buffer))
      ensures other != this && old(pool) != null && pool == old(pool) ==>
        pool.holders == (old(pool.holders) - {old(buffer)})[buffer := this]
      ensures other != this && old(pool) != null && pool != old(pool) ==>
        old(pool).holders == old(pool.holders) - {old(buffer)}
      ensures other != this && pool != null && pool != old(pool) ==>
        && pool.available == old(other.pool.available) && pool.loaned == old(other.pool.loaned)
        && pool.stats == old(other.pool.stats) && pool.holders == old(other.pool.holders)[buffer := this]
    {
      hide BufferPool.Valid, LoanEnded;
      if other != this {
        Release();
        pool, buffer := other.pool, other.buffer;
        other.pool, other.buffer := null, null;
        if pool != null {
          pool.Rehold(buffer, this);
        }
      }
    }
  }
}
