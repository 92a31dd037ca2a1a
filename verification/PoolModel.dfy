/**
 The abstract value of one class of the central pool (src/central_pool.rs).

 `ClassPools.ClassPool` refines these functions with the sorted index, the buckets and
 their back-pointers, epochs and the sweep cursor; `AllocatorModel` runs them concurrently.
 */
module PoolModel {
  import opened Basics

  datatype SlabState = Loaned | Partial | FullHot | FullCold

  /** `free` is the central list of a Partial slab; a full slab has dropped its list. */
  datatype PoolSlab = PoolSlab(start: Addr, blocks: seq<Addr>, state: SlabState, free: seq<Addr>) {
    predicate Full() { state == FullHot || state == FullCold }

    /** The blocks this slab holds centrally, listed or not. */
    function Central(): seq<Addr> { if Full() then blocks else free }

    /** `debug_assert_invariants`. */
    predicate Consistent() {
      match state
      case Loaned => free == []
      case Partial => 0 < |free| < |blocks|
      case FullHot => free == []
      case FullCold => free == []
    }
  }

  type Pool = seq<PoolSlab>

  function CentralCount(pool: Pool): nat {
    if pool == [] then 0 else CentralCount(pool[..|pool| - 1]) + |pool[|pool| - 1].Central()|
  }

  lemma {:induction false} CentralCountUpdate(pool: Pool, i: nat, slab: PoolSlab)
    requires i < |pool|
    ensures CentralCount(pool[i := slab]) == CentralCount(pool) - |pool[i].Central()| + |slab.Central()|
    ensures |pool[i].Central()| <= CentralCount(pool)
  {
    var last := |pool| - 1;
    if i == last {
      assert pool[i := slab][..last] == pool[..last];
    } else {
      CentralCountUpdate(pool[..last], i, slab);
      assert pool[i := slab][..last] == pool[..last][i := slab];
    }
  }

  lemma {:induction false} CentralCountZero(pool: Pool)
    ensures CentralCount(pool) == 0 <==> forall i :: 0 <= i < |pool| ==> pool[i].Central() == []
  {
    if pool != [] {
      var last := |pool| - 1;
      CentralCountZero(pool[..last]);
      assert forall i :: 0 <= i < last ==> pool[..last][i] == pool[i];
    }
  }

  /** Index of the first slab whose geometry has `b`, or |pool|. */
  function PoolHome(pool: Pool, b: Addr): (i: nat)
    ensures i <= |pool|
    ensures i < |pool| ==> b in pool[i].blocks
    ensures forall j :: 0 <= j < i ==> b !in pool[j].blocks
  {
    FirstWhere(pool, (slab: PoolSlab) => b in slab.blocks)
  }

  /** `register_slab` for a span the pool has not seen. */
  function Register(pool: Pool, start: Addr, blocks: seq<Addr>): Pool {
    pool + [PoolSlab(start, blocks, Loaned, [])]
  }

  /** Index of the slab that begins at `start`, or |pool|. */
  function PoolAt(pool: Pool, start: Addr): (i: nat)
    ensures i <= |pool|
    ensures i < |pool| ==> pool[i].start == start
    ensures forall j :: 0 <= j < i ==> pool[j].start != start
  {
    FirstWhere(pool, (slab: PoolSlab) => slab.start == start)
  }

  /** `register_slab` for any span: a known one is lent again. */
  function RegisterAny(pool: Pool, start: Addr, blocks: seq<Addr>): Pool {
    var i := PoolAt(pool, start);
    if i < |pool| then pool[i := Loan(pool[i])] else Register(pool, start, blocks)
  }

  /** `record_returned_block`: the last missing block makes the slab full and drops its list. */
  function ReturnToSlab(slab: PoolSlab, b: Addr): PoolSlab {
    var free := [b] + slab.free;
    if |free| == |slab.blocks| then slab.(state := FullHot, free := [])
    else slab.(state := Partial, free := free)
  }

  function ReturnBlock(pool: Pool, b: Addr): Pool {
    var i := PoolHome(pool, b);
    if i < |pool| then pool[i := ReturnToSlab(pool[i], b)] else pool
  }

  function ReturnBatch(pool: Pool, batch: seq<Addr>): Pool
    decreases batch
  {
    if batch == [] then pool else ReturnBatch(ReturnBlock(pool, batch[0]), batch[1..])
  }

  /** `b` has a slab to return to, which is not full and misses at least one block. */
  predicate ReturnableBlock(pool: Pool, b: Addr) {
    var i := PoolHome(pool, b);
    i < |pool| && !pool[i].Full() && |pool[i].free| < |pool[i].blocks|
  }

  /** What `return_batch` demands: each block of the batch, in turn, has a slab to return to. */
  predicate Returnable(pool: Pool, batch: seq<Addr>)
    decreases batch
  {
    batch == [] || (ReturnableBlock(pool, batch[0]) && Returnable(ReturnBlock(pool, batch[0]), batch[1..]))
  }

  /** The slabs the blocks of a batch return to. */
  function HomesOf(pool: Pool, batch: seq<Addr>): set<nat> { set b | b in batch :: PoolHome(pool, b) }

  ghost predicate SameGeometry(pool: Pool, pool': Pool) {
    && |pool'| == |pool|
    && (forall i :: 0 <= i < |pool| ==> pool'[i].start == pool[i].start && pool'[i].blocks == pool[i].blocks)
  }

  /** Where a block returns to depends on geometry only. */
  lemma SameHome(pool: Pool, pool': Pool, b: Addr)
    requires SameGeometry(pool, pool')
    ensures PoolHome(pool', b) == PoolHome(pool, b)
  {
  }

  lemma HomesOfNext(pool: Pool, pool': Pool, batch: seq<Addr>, k: nat)
    requires SameGeometry(pool, pool') && k < |batch|
    ensures HomesOf(pool, batch[..k + 1]) == HomesOf(pool, batch[..k]) + {PoolHome(pool', batch[k])}
  {
    SameHome(pool, pool', batch[k]);
    assert batch[..k + 1] == batch[..k] + [batch[k]];
  }

  // ----- What a returned batch does to every slab

  /** The blocks of a batch that return to slab `i`, the one returned last first. */
  function Homed(pool: Pool, batch: seq<Addr>, i: nat): seq<Addr>
    decreases batch
  {
    if batch == [] then []
    else Homed(pool, batch[1..], i) + if PoolHome(pool, batch[0]) == i then [batch[0]] else []
  }

  /** A slab gets `back` in front of its list; the last missing block makes it full and hot instead. */
  ghost predicate Returned(slab: PoolSlab, back: seq<Addr>, slab': PoolSlab) {
    if back == [] then slab' == slab
    else
      && slab'.start == slab.start && slab'.blocks == slab.blocks
      && |back| + |slab.free| <= |slab.blocks|
      && if |back| + |slab.free| == |slab.blocks| then slab'.state == FullHot && slab'.free == []
         else slab'.state == Partial && slab'.free == back + slab.free
  }

  lemma {:induction false} SameHomed(pool: Pool, pool': Pool, batch: seq<Addr>, i: nat)
    requires SameGeometry(pool, pool')
    ensures Homed(pool', batch, i) == Homed(pool, batch, i)
    decreases batch
  {
    if batch != [] {
      SameHome(pool, pool', batch[0]);
      SameHomed(pool, pool', batch[1..], i);
    }
  }

  lemma OneReturned(pool: Pool, b: Addr, i: nat)
    requires ReturnableBlock(pool, b) && i < |pool|
    ensures SameGeometry(pool, ReturnBlock(pool, b))
    ensures Returned(pool[i], if PoolHome(pool, b) == i then [b] else [], ReturnBlock(pool, b)[i])
  {
  }

  lemma ReturnedThen(slab: PoolSlab, back: seq<Addr>, mid: PoolSlab, more: seq<Addr>, slab': PoolSlab)
    requires Returned(slab, back, mid) && Returned(mid, more, slab')
    requires |back| <= 1 && (more != [] ==> !mid.Full() && |mid.free| < |mid.blocks|)
    ensures Returned(slab, more + back, slab')
  {
    if more == [] {
      assert more + back == back;
    } else if back == [] {
      assert more + back == more;
    } else {
      assert more + back + slab.free == more + (back + slab.free);
    }
  }

  /** A slab that some block of the batch returns to has room for it. */
  lemma {:induction false} HomedHasRoom(pool: Pool, batch: seq<Addr>, i: nat)
    requires Returnable(pool, batch) && i < |pool| && Homed(pool, batch, i) != []
    ensures !pool[i].Full() && |pool[i].free| < |pool[i].blocks|
    decreases batch
  {
    hide PoolHome;
    if PoolHome(pool, batch[0]) != i {
      OneReturned(pool, batch[0], i);
      SameHomed(pool, ReturnBlock(pool, batch[0]), batch[1..], i);
      HomedHasRoom(ReturnBlock(pool, batch[0]), batch[1..], i);
    }
  }

  /** A batch returns to every slab at once: each gets its own blocks, in order, and no other slab changes. */
  lemma {:induction false} ReturnBatchReturns(pool: Pool, batch: seq<Addr>, i: nat)
    requires Returnable(pool, batch) && i < |pool|
    ensures |ReturnBatch(pool, batch)| == |pool|
    ensures Returned(pool[i], Homed(pool, batch, i), ReturnBatch(pool, batch)[i])
    decreases batch
  {
    hide PoolHome, ReturnBlock, Returned;
    if batch != [] {
      var pool1 := ReturnBlock(pool, batch[0]);
      OneReturned(pool, batch[0], i);
      ReturnBatchReturns(pool1, batch[1..], i);
      SameHomed(pool, pool1, batch[1..], i);
      if Homed(pool1, batch[1..], i) != [] {
        HomedHasRoom(pool1, batch[1..], i);
      }
      ReturnedThen(pool[i], if PoolHome(pool, batch[0]) == i then [batch[0]] else [], pool1[i],
                   Homed(pool1, batch[1..], i), ReturnBatch(pool, batch)[i]);
    } else {
      NothingReturned(pool[i]);
    }
  }

  lemma EverySlabReturns(pool: Pool, batch: seq<Addr>)
    requires Returnable(pool, batch)
    ensures |ReturnBatch(pool, batch)| == |pool|
    ensures forall i :: 0 <= i < |pool| ==> Returned(pool[i], Homed(pool, batch, i), ReturnBatch(pool, batch)[i])
  {
    ReturnBatchLength(pool, batch);
    forall i | 0 <= i < |pool| ensures Returned(pool[i], Homed(pool, batch, i), ReturnBatch(pool, batch)[i]) {
      ReturnBatchReturns(pool, batch, i);
    }
  }

  lemma {:induction false} ReturnBatchLength(pool: Pool, batch: seq<Addr>)
    ensures |ReturnBatch(pool, batch)| == |pool|
    decreases batch
  {
    if batch != [] {
      ReturnBatchLength(ReturnBlock(pool, batch[0]), batch[1..]);
    }
  }

  lemma NothingReturned(slab: PoolSlab)
    ensures Returned(slab, [], slab)
  {
  }

  function ChosenSlab(r: Refill): set<nat> { if r.Empty? then {} else {r.slab} }

  /** What one refill gives: a batch from a partial slab, a whole full slab, or nothing. */
  datatype Refill = Empty | Batch(slab: nat) | Whole(slab: nat)

  /** Partial slabs first, then hot full ones, then cold ones; empty only when there is none. */
  ghost predicate RefillChoice(pool: Pool, r: Refill) {
    match r
    case Batch(i) => i < |pool| && pool[i].state == Partial
    case Whole(i) =>
      && i < |pool| && pool[i].Full()
      && (forall j :: 0 <= j < |pool| ==> pool[j].state != Partial)
      && (pool[i].state == FullCold ==> forall j :: 0 <= j < |pool| ==> pool[j].state != FullHot)
    case Empty => forall j :: 0 <= j < |pool| ==> pool[j].state == Loaned
  }

  /** `take_partial_batch`. */
  function TakePartial(slab: PoolSlab, max: nat): PoolSlab {
    var n := Min(max, |slab.free|);
    slab.(free := slab.free[n..], state := if n == |slab.free| then Loaned else Partial)
  }

  function PartialBatch(slab: PoolSlab, max: nat): seq<Addr> { slab.free[..Min(max, |slab.free|)] }

  /** A partial slab gives as many blocks as asked and available, from the front of its list, and keeps the rest. */
  lemma PartialTakes(slab: PoolSlab, max: nat)
    requires slab.state == Partial && slab.Consistent() && max > 0
    ensures var batch, rest := PartialBatch(slab, max), TakePartial(slab, max);
            && |batch| == Min(max, |slab.free|) && batch != [] && batch + rest.free == slab.free
            && rest.start == slab.start && rest.blocks == slab.blocks && rest.Consistent()
            && rest.state == if rest.free == [] then Loaned else Partial
  {
  }

  /** `loan_whole_slab`. */
  function Loan(slab: PoolSlab): PoolSlab { slab.(state := Loaned, free := []) }
}
