/** The live registry and best-fit free pool of large blocks (src/large_object.rs), with its counters. */
module LargeObjects {
  import opened Basics
  import opened Headers

  datatype LargeRecord = LargeRecord(block: Addr, size: nat, requested: nat, usable: nat)

  datatype FreeBlock = FreeBlock(block: Addr, size: nat)

  // ----- Sums over maps

  ghost function Sum(m: map<nat, nat>): nat
    decreases |m|
  {
    if m == map[] then 0
    else
      var k :| k in m;
      m[k] + Sum(m - {k})
  }

  /** The order of summation does not matter. */
  lemma {:induction false} SumRemove(m: map<nat, nat>, k: nat)
    requires k in m
    ensures Sum(m) == m[k] + Sum(m - {k})
    decreases |m|
  {
    var j :| j in m && Sum(m) == m[j] + Sum(m - {j});
    if j != k {
      SumRemove(m - {j}, k);
      assert m - {j} - {k} == m - {k} - {j};
      SumRemove(m - {k}, j);
    }
  }

  lemma SumUpdate(m: map<nat, nat>, k: nat, v: nat)
    ensures Sum(m[k := v]) == Sum(m) - (if k in m then m[k] else 0) + v
    ensures k in m ==> m[k] <= Sum(m)
  {
    SumRemove(m[k := v], k);
    if k in m {
      SumRemove(m, k);
      assert m[k := v] - {k} == m - {k};
    } else {
      assert m[k := v] - {k} == m;
    }
  }

  // ----- The pool as a value

  type Buckets = map<nat, seq<FreeBlock>>

  ghost predicate BucketsOk(free: Buckets) {
    forall size :: size in free ==> free[size] != [] && forall k :: 0 <= k < |free[size]| ==> free[size][k].size == size
  }

  function BucketOf(free: Buckets, size: nat): seq<FreeBlock> { if size in free then free[size] else [] }

  /** `insert_free_block`. */
  function InsertFree(free: Buckets, b: FreeBlock): Buckets { free[b.size := BucketOf(free, b.size) + [b]] }

  /** Removes the last block of a bucket; an emptied bucket goes too. */
  function RemoveLast(free: Buckets, size: nat): Buckets
    requires size in free && free[size] != []
  {
    if |free[size]| == 1 then free - {size} else free[size := free[size][..|free[size]| - 1]]
  }

  /** The bucket a request is served from: the smallest size that is enough. */
  ghost predicate BestFit(free: Buckets, minimum: nat, size: nat) {
    size in free && minimum <= size && forall other :: other in free && minimum <= other ==> size <= other
  }

  lemma {:induction false} BestFitExists(sizes: set<nat>, minimum: nat) returns (best: nat)
    requires exists size :: size in sizes && minimum <= size
    ensures best in sizes && minimum <= best && forall other :: other in sizes && minimum <= other ==> best <= other
    decreases |sizes|
  {
    var size :| size in sizes && minimum <= size;
    best := size;
    if other :| other in sizes && minimum <= other < size {
      var smaller := sizes - {size};
      assert other in smaller;
      best := BestFitExists(smaller, minimum);
      forall x | x in sizes && minimum <= x ensures best <= x { assert x == size || x in smaller; }
    }
  }

  lemma BucketHolds(free: Buckets, size: nat)
    requires BucketsOk(free) && size in free
    ensures free[size] != [] && free[size][|free[size]| - 1].size == size
  {
  }

  // ----- Counters

  function Weight(size: nat, n: nat): nat { size * n }

  lemma WeightStep(size: nat, n: nat)
    ensures Weight(size, n + 1) == Weight(size, n) + size
    ensures Weight(size, 0) == 0
  {
  }

  ghost function Lengths(free: Buckets): map<nat, nat> { map size | size in free :: |free[size]| }

  ghost function Weights(free: Buckets): map<nat, nat> { map size | size in free :: Weight(size, |free[size]|) }

  ghost function LiveSizes(live: map<Addr, LargeRecord>): map<nat, nat> { map u | u in live :: live[u].size }

  ghost function FreeCount(free: Buckets): nat { Sum(Lengths(free)) }

  ghost function FreeBytes(free: Buckets): nat { Sum(Weights(free)) }

  ghost function LiveBytes(live: map<Addr, LargeRecord>): nat { Sum(LiveSizes(live)) }

  lemma InsertCounts(free: Buckets, b: FreeBlock)
    ensures FreeCount(InsertFree(free, b)) == FreeCount(free) + 1
    ensures FreeBytes(InsertFree(free, b)) == FreeBytes(free) + b.size
  {
    hide Weight, Sum;
    var n := |BucketOf(free, b.size)|;
    WeightStep(b.size, n);
    SumUpdate(Lengths(free), b.size, n + 1);
    assert Lengths(InsertFree(free, b)) == Lengths(free)[b.size := n + 1];
    SumUpdate(Weights(free), b.size, Weight(b.size, n + 1));
    assert Weights(InsertFree(free, b)) == Weights(free)[b.size := Weight(b.size, n + 1)];
  }

  lemma InsertKeepsBuckets(free: Buckets, b: FreeBlock)
    requires BucketsOk(free)
    ensures BucketsOk(InsertFree(free, b))
  {
  }

  lemma RemoveCounts(free: Buckets, size: nat)
    requires size in free && free[size] != []
    ensures FreeCount(RemoveLast(free, size)) + 1 == FreeCount(free)
    ensures FreeBytes(RemoveLast(free, size)) + size == FreeBytes(free)
  {
    hide Weight, Sum;
    var n := |free[size]|;
    var rest := RemoveLast(free, size);
    WeightStep(size, n - 1);
    if n == 1 {
      SumRemove(Lengths(free), size);
      SumRemove(Weights(free), size);
      assert Lengths(rest) == Lengths(free) - {size} && Weights(rest) == Weights(free) - {size};
    } else {
      SumUpdate(Lengths(free), size, n - 1);
      SumUpdate(Weights(free), size, Weight(size, n - 1));
      assert Lengths(rest) == Lengths(free)[size := n - 1];
      assert Weights(rest) == Weights(free)[size := Weight(size, n - 1)];
    }
  }

  lemma RemoveKeepsBuckets(free: Buckets, size: nat)
    requires BucketsOk(free) && size in free
    ensures BucketsOk(RemoveLast(free, size))
  {
  }

  lemma RegisterCounts(live: map<Addr, LargeRecord>, u: Addr, r: LargeRecord)
    requires u !in live
    ensures LiveBytes(live[u := r]) == LiveBytes(live) + r.size
  {
    SumUpdate(LiveSizes(live), u, r.size);
    assert LiveSizes(live[u := r]) == LiveSizes(live)[u := r.size];
  }

  lemma UnregisterCounts(live: map<Addr, LargeRecord>, u: Addr)
    requires u in live
    ensures LiveBytes(live - {u}) + live[u].size == LiveBytes(live)
  {
    SumRemove(LiveSizes(live), u);
    assert LiveSizes(live - {u}) == LiveSizes(live) - {u};
  }

  class LargeObjectState {
    var live: map<Addr, LargeRecord>
    var liveBytes: nat
    var free: Buckets
    var freeBlocks: nat
    var freeBytes: nat

    /** No bucket is empty or mixed, and every counter is the sum it stands for. */
    ghost predicate Valid()
      reads this
    {
      && BucketsOk(free) && liveBytes == LiveBytes(live)
      && freeBlocks == FreeCount(free) && freeBytes == FreeBytes(free)
    }

    constructor ()
      ensures Valid() && live == map[] && free == map[]
    {
      live, free, liveBytes, freeBlocks, freeBytes := map[], map[], 0, 0, 0;
      new;
      assert Lengths(map[]) == map[] && Weights(map[]) == map[] && LiveSizes(map[]) == map[];
    }

    method InsertFreeBlock(b: FreeBlock)
      requires Valid()
      modifies this`free, this`freeBlocks, this`freeBytes
      ensures Valid() && free == InsertFree(old(free), b)
    {
      InsertCounts(free, b);
      InsertKeepsBuckets(free, b);
      free := InsertFree(free, b);
      freeBlocks, freeBytes := freeBlocks + 1, freeBytes + b.size;
    }

    /** The first bucket at or above `minimum`. */
    method BestBucket(minimum: nat) returns (size: nat)
      requires exists other :: other in free && minimum <= other
      ensures BestFit(free, minimum, size)
    {
      ghost var best := BestFitExists(free.Keys, minimum);
      assert BestFit(free, minimum, best);
      size :| size in free.Keys && minimum <= size && forall other | other in free.Keys :: minimum <= other ==> size <= other;
    }

    /** Best fit: the smallest sufficient size, the block pooled last first. */
    method TakeBestFitBlock(minimum: nat) returns (r: Option<FreeBlock>)
      requires Valid()
      modifies this`free, this`freeBlocks, this`freeBytes
      ensures Valid()
      ensures r.None? <==> forall size :: size in old(free) ==> size < minimum
      ensures r.None? ==> free == old(free)
      ensures r.Some? ==>
                && BestFit(old(free), minimum, r.value.size)
                && r.value == old(free)[r.value.size][|old(free)[r.value.size]| - 1]
                && free == RemoveLast(old(free), r.value.size)
    {
      if forall size | size in free :: size < minimum {
        return None;
      }
      hide FreeCount, FreeBytes, LiveBytes, BucketsOk;
      var size := BestBucket(minimum);
      assert free[size] != [] && free[size][|free[size]| - 1].size == size by { BucketHolds(free, size); }
      RemoveCounts(free, size);
      RemoveKeepsBuckets(free, size);
      var blocks := free[size];
      var b := blocks[|blocks| - 1];
      free := RemoveLast(free, size);
      freeBlocks, freeBytes := freeBlocks - 1, freeBytes - b.size;
      r := Some(b);
    }

    /** `record_live_allocation`: the source panics when the pointer is already registered. */
    method RecordLiveAllocation(user: Addr, r: LargeRecord) returns (registered: bool)
      requires Valid()
      modifies this`live, this`liveBytes
      ensures Valid() && (registered <==> user !in old(live))
      ensures live == if registered then old(live)[user := r] else old(live)
    {
      registered := user !in live;
      if registered {
        RegisterCounts(live, user, r);
        live, liveBytes := live[user := r], liveBytes + r.size;
      }
    }

    /** `validate_and_release_live_allocation`. */
    method ValidateAndRelease(user: Addr, requested: nat, usable: nat) returns (r: Result<()>)
      requires Valid()
      modifies this
      ensures Valid() && r == ReleaseCheck(old(live), user, requested, usable)
      ensures r.Err? ==> live == old(live) && free == old(free)
      ensures r.Ok? ==>
                && live == old(live) - {user}
                && free == InsertFree(old(free), FreeBlock(old(live)[user].block, old(live)[user].size))
    {
      if user !in live {
        return Err(AlreadyFreedOrUnknownLarge);
      }
      var record := live[user];
      if record.requested != requested || record.usable != usable {
        return Err(CorruptHeader);
      }
      UnregisterCounts(live, user);
      live, liveBytes := live - {user}, liveBytes - record.size;
      InsertFreeBlock(FreeBlock(record.block, record.size));
      r := Ok(());
    }
  }

  function ReleaseCheck(live: map<Addr, LargeRecord>, user: Addr, requested: nat, usable: nat): Result<()> {
    if user !in live then Err(AlreadyFreedOrUnknownLarge)
    else if live[user].requested != requested || live[user].usable != usable then Err(CorruptHeader)
    else Ok(())
  }
}
