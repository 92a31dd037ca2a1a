/**
 The sorted slab index that thread caches and central pools both keep: slab ids ordered by
 start address, searched by partition point, with a shortcut to the slab used last.
 */
module SlabIndex {
  import opened Basics
  import opened SizeClasses
  import Arena

  /** `index` lists every slab id once, in increasing order of start address. */
  ghost predicate Sorted(starts: seq<Addr>, index: seq<nat>) {
    && |index| == |starts|
    && (forall k :: 0 <= k < |index| ==> index[k] < |starts|)
    && (forall j, k :: 0 <= j < k < |index| ==> starts[index[j]] < starts[index[k]])
    && (forall i :: 0 <= i < |starts| ==> i in index)
  }

  /** `slice::partition_point` on `start <= addr`. */
  method PartitionPoint(starts: seq<Addr>, index: seq<nat>, addr: Addr) returns (n: nat)
    requires Sorted(starts, index)
    ensures n <= |index|
    ensures forall k :: 0 <= k < n ==> starts[index[k]] <= addr
    ensures forall k :: n <= k < |index| ==> addr < starts[index[k]]
  {
    var lo, hi := 0, |index|;
    while lo < hi
      invariant 0 <= lo <= hi <= |index|
      invariant forall k :: 0 <= k < lo ==> starts[index[k]] <= addr
      invariant forall k :: hi <= k < |index| ==> addr < starts[index[k]]
    {
      var mid := (lo + hi) / 2;
      if starts[index[mid]] <= addr {
        lo := mid + 1;
      } else {
        hi := mid;
      }
    }
    n := lo;
  }

  /** `slice::binary_search_by_key`: the slot of a slab that starts at `start`, or where one belongs. */
  method BinarySearch(starts: seq<Addr>, index: seq<nat>, start: Addr) returns (found: bool, slot: nat)
    requires Sorted(starts, index)
    ensures found <==> start in starts
    ensures found ==> slot < |index| && index[slot] < |starts| && starts[index[slot]] == start
    ensures !found ==> slot <= |index|
    ensures !found ==> forall k :: 0 <= k < slot ==> starts[index[k]] < start
    ensures !found ==> forall k :: slot <= k < |index| ==> start < starts[index[k]]
  {
    slot := PartitionPoint(starts, index, start);
    found := slot > 0 && starts[index[slot - 1]] == start;
    if found {
      slot := slot - 1;
    } else {
      AbsentStart(starts, index, start, slot);
    }
  }

  /** The slot before the partition point is the only one where a slab can start at `start`. */
  lemma AbsentStart(starts: seq<Addr>, index: seq<nat>, start: Addr, n: nat)
    requires Sorted(starts, index) && n <= |index|
    requires forall k :: n <= k < |index| ==> start < starts[index[k]]
    requires forall k :: 0 <= k < n ==> starts[index[k]] <= start
    ensures start in starts ==> n > 0 && starts[index[n - 1]] == start
  {
    if start in starts {
      var i :| 0 <= i < |starts| && starts[i] == start;
      assert i in index;
      var k :| 0 <= k < |index| && index[k] == i;
      LastStart(starts, index, n, k);
    }
  }

  function Insert(index: seq<nat>, slot: nat, id: nat): seq<nat>
    requires slot <= |index|
  {
    index[..slot] + [id] + index[slot..]
  }

  lemma InsertAt(index: seq<nat>, slot: nat, id: nat)
    requires slot <= |index|
    ensures |Insert(index, slot, id)| == |index| + 1
    ensures forall k :: 0 <= k < |index| + 1 ==>
              Insert(index, slot, id)[k] == if k < slot then index[k] else if k == slot then id else index[k - 1]
  {
  }

  lemma InsertKeepsSorted(starts: seq<Addr>, index: seq<nat>, slot: nat, start: Addr)
    requires Sorted(starts, index) && slot <= |index|
    requires forall k :: 0 <= k < slot ==> starts[index[k]] < start
    requires forall k :: slot <= k < |index| ==> start < starts[index[k]]
    ensures Sorted(starts + [start], Insert(index, slot, |starts|))
  {
    var starts', index' := starts + [start], Insert(index, slot, |starts|);
    InsertAt(index, slot, |starts|);
    hide Insert;
    forall i | 0 <= i < |starts'| ensures i in index' {
      if i < |starts| {
        assert i in index;
        var k :| 0 <= k < |index| && index[k] == i;
        assert index'[if k < slot then k else k + 1] == i;
      } else {
        assert index'[slot] == i;
      }
    }
  }

  // ----- Membership

  /** `contains`: inside the byte range and on a block boundary. */
  predicate Contains(start: Addr, end: nat, blockSize: nat, addr: Addr)
    requires blockSize > 0
  {
    start <= addr < end && (addr - start) % blockSize == 0
  }

  lemma IndexBelow(j: nat, capacity: nat, blockSize: nat)
    requires j * blockSize < blockSize * capacity
    ensures j < capacity
  {
    if j >= capacity {
      MulMonotone(capacity, j, blockSize);
    }
  }

  /** The range-and-modulus test accepts exactly the carved block starts. */
  lemma ContainsIffCarved(start: Addr, blockSize: nat, capacity: nat, addr: Addr)
    requires blockSize > 0
    ensures Contains(start, start + blockSize * capacity, blockSize, addr) <==>
            addr in Arena.Carve(start, blockSize, capacity)
  {
    var l := Arena.Carve(start, blockSize, capacity);
    if Contains(start, start + blockSize * capacity, blockSize, addr) {
      var j := (addr - start) / blockSize;
      assert addr - start == j * blockSize;
      IndexBelow(j, capacity, blockSize);
      assert l[j] == addr;
    }
    if addr in l {
      var j :| 0 <= j < |l| && l[j] == addr;
      Arena.BlockInside(start, blockSize, capacity, j);
      MultipleMod(j, blockSize);
      assert addr - start == j * blockSize;
      assert blockSize * capacity == capacity * blockSize;
    }
  }

  // ----- Lookup

  /** Byte ranges of different slabs do not overlap. */
  ghost predicate Disjoint(starts: seq<Addr>, ends: seq<nat>) {
    && |starts| == |ends|
    && (forall i :: 0 <= i < |starts| ==> starts[i] < ends[i])
    && (forall i, j :: 0 <= i < |starts| && 0 <= j < |starts| && i != j ==> ends[i] <= starts[j] || ends[j] <= starts[i])
  }

  lemma LastStart(starts: seq<Addr>, index: seq<nat>, n: nat, k: nat)
    requires Sorted(starts, index) && k < n <= |index|
    ensures index[n - 1] < |starts|
    ensures index[n - 1] == index[k] || starts[index[k]] < starts[index[n - 1]]
  {
  }

  /** The slab before the partition point is the only one whose range can reach `addr`. */
  lemma OnlyCandidate(starts: seq<Addr>, ends: seq<nat>, index: seq<nat>, addr: Addr, n: nat, i: nat)
    requires Sorted(starts, index) && Disjoint(starts, ends) && n <= |index| && i < |starts|
    requires forall k :: 0 <= k < n ==> starts[index[k]] <= addr
    requires forall k :: n <= k < |index| ==> addr < starts[index[k]]
    requires starts[i] <= addr < ends[i]
    ensures n > 0 && index[n - 1] == i
  {
    assert i in index;
    var k :| 0 <= k < |index| && index[k] == i;
    assert k < n;
    LastStart(starts, index, n, k);
  }
}
