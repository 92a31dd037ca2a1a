/**
 One class of the central pool as src/central_pool.rs keeps it: slab records with counters,
 a sorted index, three buckets with back-pointers, epochs and a sweep cursor. Every method
 refines its function in `PoolModel`.
 */
module ClassPools {
  import opened Basics
  import opened PoolModel
  import opened SlabIndex
  import Arena
  import SizeClasses

  const SWEEP_INTERVAL: nat := 64
  const COLD_EPOCHS: nat := 4
  const SWEEP_SCAN_BUDGET: nat := 2

  datatype SlabRecord = SlabRecord(
    start: Addr, end: nat, blockSize: nat, capacity: nat,
    centralFreeLen: nat, partialFree: seq<Addr>, lastTouched: nat, state: SlabState, slot: Option<nat>)
  {
    ghost predicate Shaped() { blockSize > 0 && capacity > 0 && end == start + blockSize * capacity }

    /** State, counter and list agree. */
    ghost predicate Consistent() {
      match state
      case Loaned => centralFreeLen == 0 && partialFree == []
      case Partial => 0 < centralFreeLen < capacity && |partialFree| == centralFreeLen
      case FullHot => centralFreeLen == capacity && partialFree == []
      case FullCold => centralFreeLen == capacity && partialFree == []
    }

    function Geometry(): seq<Addr> { Arena.Carve(start, blockSize, capacity) }

    function Model(): PoolSlab { PoolSlab(start, Geometry(), state, partialFree) }

    predicate IsSweepCandidate(epoch: nat) {
      state == FullHot && (if epoch >= lastTouched then epoch - lastTouched else 0) >= COLD_EPOCHS
    }
  }

  function NewRecord(start: Addr, blockSize: nat, capacity: nat, epoch: nat): SlabRecord {
    SlabRecord(start, start + blockSize * capacity, blockSize, capacity, 0, [], epoch, Loaned, None)
  }

  function Starts(slabs: seq<SlabRecord>): (starts: seq<Addr>)
    ensures |starts| == |slabs| && forall i :: 0 <= i < |slabs| ==> starts[i] == slabs[i].start
  {
    Map((r: SlabRecord) => r.start, slabs)
  }

  function Ends(slabs: seq<SlabRecord>): (ends: seq<nat>)
    ensures |ends| == |slabs| && forall i :: 0 <= i < |slabs| ==> ends[i] == slabs[i].end
  {
    Map((r: SlabRecord) => r.end, slabs)
  }

  function Models(slabs: seq<SlabRecord>): (models: Pool)
    ensures |models| == |slabs| && forall i :: 0 <= i < |slabs| ==> models[i] == slabs[i].Model()
  {
    Map((r: SlabRecord) => r.Model(), slabs)
  }

  function States(slabs: seq<SlabRecord>): (states: seq<SlabState>)
    ensures |states| == |slabs| && forall i :: 0 <= i < |slabs| ==> states[i] == slabs[i].state
  {
    Map((r: SlabRecord) => r.state, slabs)
  }

  ghost predicate AllSound(slabs: seq<SlabRecord>) {
    forall i :: 0 <= i < |slabs| ==> slabs[i].Shaped() && slabs[i].Consistent()
  }

  // ----- Buckets

  datatype Buckets = Buckets(partial: seq<nat>, hot: seq<nat>, cold: seq<nat>) {
    function Of(state: SlabState): seq<nat> {
      match state
      case Loaned => []
      case Partial => partial
      case FullHot => hot
      case FullCold => cold
    }

    function With(state: SlabState, bucket: seq<nat>): Buckets {
      match state
      case Loaned => this
      case Partial => this.(partial := bucket)
      case FullHot => this.(hot := bucket)
      case FullCold => this.(cold := bucket)
    }
  }

  /** Entry `k` of the bucket of `state` names a slab filed there, whose back-pointer is `k`, or the slab `stale`. */
  ghost predicate EntryOk(slots: seq<Option<nat>>, filed: seq<SlabState>, buckets: Buckets, stale: nat, state: SlabState, k: nat)
    requires |slots| == |filed| && k < |buckets.Of(state)|
  {
    var id := buckets.Of(state)[k];
    id < |slots| && (id == stale || (filed[id] == state && slots[id] == Some(k)))
  }

  /** A slab filed under `state` is in that bucket at its recorded slot; a loaned one is in none. */
  ghost predicate SlotOk(slots: seq<Option<nat>>, filed: seq<SlabState>, buckets: Buckets, id: nat)
    requires |slots| == |filed| && id < |slots|
  {
    match slots[id]
    case None => filed[id] == Loaned
    case Some(k) => k < |buckets.Of(filed[id])| && buckets.Of(filed[id])[k] == id
  }

  ghost predicate Names(buckets: Buckets, state: SlabState, k: nat, id: nat) {
    k < |buckets.Of(state)| && buckets.Of(state)[k] == id
  }

  /**
   Buckets and back-pointers are inverse to each other, for slabs filed as `filed` says. A
   slab number `stale`, if there is one, is loaned but still named by some bucket.
   */
  ghost predicate FiledBut(slots: seq<Option<nat>>, filed: seq<SlabState>, buckets: Buckets, stale: nat) {
    && |slots| == |filed|
    && (forall state, k :: 0 <= k < |buckets.Of(state)| ==> EntryOk(slots, filed, buckets, stale, state, k))
    && (forall id :: 0 <= id < |slots| && id != stale ==> SlotOk(slots, filed, buckets, id))
    && (stale < |slots| ==> filed[stale] == Loaned && exists state, k :: Names(buckets, state, k, stale))
  }

  /** No slab is stale. */
  ghost predicate Filed(slots: seq<Option<nat>>, filed: seq<SlabState>, buckets: Buckets) {
    FiledBut(slots, filed, buckets, |slots|)
  }

  function SlotsOf(slabs: seq<SlabRecord>): (slots: seq<Option<nat>>)
    ensures |slots| == |slabs| && forall i :: 0 <= i < |slabs| ==> slots[i] == slabs[i].slot
  {
    Map((r: SlabRecord) => r.slot, slabs)
  }

  /** `swap_remove` at `slot`. */
  function SwapRemove(bucket: seq<nat>, slot: nat): seq<nat>
    requires slot < |bucket|
  {
    bucket[slot := bucket[|bucket| - 1]][..|bucket| - 1]
  }

  /** Back-pointers after `id` left its bucket: the entry that took its slot points there. */
  function SlotsAfterRemove(slots: seq<Option<nat>>, bucket: seq<nat>, id: nat, slot: nat): seq<Option<nat>>
    requires id < |slots| && slot < |bucket| && bucket[|bucket| - 1] < |slots|
  {
    var cleared := slots[id := None];
    if slot < |bucket| - 1 then cleared[bucket[|bucket| - 1] := Some(slot)] else cleared
  }

  lemma RemoveKeepsFiled(slots: seq<Option<nat>>, filed: seq<SlabState>, buckets: Buckets, stale: nat, id: nat)
    requires FiledBut(slots, filed, buckets, stale) && id < |slots| && id != stale && slots[id].Some?
    ensures var state, slot := filed[id], slots[id].value;
            var bucket := buckets.Of(state);
            && state != Loaned && slot < |bucket| && bucket[slot] == id && bucket[|bucket| - 1] < |slots|
            && FiledBut(SlotsAfterRemove(slots, bucket, id, slot), filed[id := Loaned],
                        buckets.With(state, SwapRemove(bucket, slot)), stale)
  {
    var state, slot := filed[id], slots[id].value;
    assert SlotOk(slots, filed, buckets, id);
    var bucket := buckets.Of(state);
    var last := |bucket| - 1;
    assert EntryOk(slots, filed, buckets, stale, state, last);
    var slots', filed' := SlotsAfterRemove(slots, bucket, id, slot), filed[id := Loaned];
    var buckets' := buckets.With(state, SwapRemove(bucket, slot));
    forall st, k | 0 <= k < |buckets'.Of(st)| ensures EntryOk(slots', filed', buckets', stale, st, k) {
      assert EntryOk(slots, filed, buckets, stale, st, k);
    }
    forall x | 0 <= x < |slots'| && x != stale ensures SlotOk(slots', filed', buckets', x) {
      assert SlotOk(slots, filed, buckets, x);
    }
    if stale < |slots| {
      var st, k :| Names(buckets, st, k, stale);
      assert Names(buckets', st, if st == state && k == last then slot else k, stale);
    }
  }

  lemma AddKeepsFiled(slots: seq<Option<nat>>, filed: seq<SlabState>, buckets: Buckets, stale: nat, id: nat, state: SlabState)
    requires FiledBut(slots, filed, buckets, stale) && id < |slots| && id != stale && filed[id] == Loaned && state != Loaned
    ensures FiledBut(slots[id := Some(|buckets.Of(state)|)], filed[id := state],
                     buckets.With(state, buckets.Of(state) + [id]), stale)
  {
    var bucket := buckets.Of(state);
    var slots', filed', buckets' := slots[id := Some(|bucket|)], filed[id := state], buckets.With(state, bucket + [id]);
    assert SlotOk(slots, filed, buckets, id);
    forall st, k | 0 <= k < |buckets'.Of(st)| ensures EntryOk(slots', filed', buckets', stale, st, k) {
      if st == state && k == |bucket| {
      } else {
        assert EntryOk(slots, filed, buckets, stale, st, k);
      }
    }
    forall x | 0 <= x < |slots'| && x != stale ensures SlotOk(slots', filed', buckets', x) {
      assert SlotOk(slots, filed, buckets, x);
    }
    if stale < |slots| {
      var st, k :| Names(buckets, st, k, stale);
      assert Names(buckets', st, k, stale);
    }
  }

  // ----- Records

  /** `record_returned_block`. */
  function RecordReturned(r: SlabRecord, b: Addr): SlabRecord {
    var r' := r.(partialFree := [b] + r.partialFree, centralFreeLen := r.centralFreeLen + 1);
    if r'.centralFreeLen == r'.capacity then r'.(state := FullHot, partialFree := []) else r'.(state := Partial)
  }

  lemma RecordReturnedIs(r: SlabRecord, b: Addr)
    requires r.Shaped() && r.Consistent() && (r.state == Loaned || r.state == Partial)
    ensures RecordReturned(r, b).Consistent() && RecordReturned(r, b).Model() == ReturnToSlab(r.Model(), b)
    ensures Returned(r.Model(), [b], RecordReturned(r, b).Model())
  {
  }

  /** `take_partial_batch`. */
  function TakenFrom(r: SlabRecord, max: nat): SlabRecord {
    var n := Min(max, |r.partialFree|);
    var left := if r.centralFreeLen >= n then r.centralFreeLen - n else 0;
    r.(partialFree := r.partialFree[n..], centralFreeLen := left, state := if left == 0 then Loaned else r.state)
  }

  lemma TakenFromIs(r: SlabRecord, max: nat)
    requires r.Shaped() && r.Consistent() && r.state == Partial && max > 0
    ensures TakenFrom(r, max).Consistent() && TakenFrom(r, max).Model() == TakePartial(r.Model(), max)
    ensures PartialBatch(r.Model(), max) == r.partialFree[..Min(max, |r.partialFree|)] != []
  {
  }

  /** The records differ in back-pointers only. */
  ghost predicate SameButSlots(slabs: seq<SlabRecord>, slabs': seq<SlabRecord>) {
    && |slabs'| == |slabs|
    && (forall i :: 0 <= i < |slabs| ==> slabs'[i] == slabs[i].(slot := slabs'[i].slot))
  }

  lemma SlotsAreInvisible(slabs: seq<SlabRecord>, slabs': seq<SlabRecord>)
    requires SameButSlots(slabs, slabs')
    ensures Models(slabs') == Models(slabs) && States(slabs') == States(slabs)
    ensures Starts(slabs') == Starts(slabs) && Ends(slabs') == Ends(slabs)
    ensures AllSound(slabs) ==> AllSound(slabs')
  {
    forall i | 0 <= i < |slabs|
      ensures slabs'[i].Model() == slabs[i].Model()
      ensures slabs[i].Shaped() && slabs[i].Consistent() ==> slabs'[i].Shaped() && slabs'[i].Consistent()
    {
    }
  }

  /** One record is replaced by another of the same geometry and back-pointer. */
  lemma RecordsUpdate(slabs: seq<SlabRecord>, i: nat, r: SlabRecord)
    requires i < |slabs| && r.slot == slabs[i].slot && r.start == slabs[i].start && r.end == slabs[i].end
    ensures Models(slabs[i := r]) == Models(slabs)[i := r.Model()]
    ensures Starts(slabs[i := r]) == Starts(slabs) && Ends(slabs[i := r]) == Ends(slabs)
    ensures States(slabs[i := r]) == States(slabs)[i := r.state] && SlotsOf(slabs[i := r]) == SlotsOf(slabs)
    ensures AllSound(slabs) && r.Shaped() && r.Consistent() ==> AllSound(slabs[i := r])
  {
  }

  lemma PoolHomeIs(slabs: seq<SlabRecord>, b: Addr, i: nat)
    requires AllSound(slabs) && Disjoint(Starts(slabs), Ends(slabs)) && i < |slabs|
    requires Contains(slabs[i].start, slabs[i].end, slabs[i].blockSize, b)
    ensures PoolHome(Models(slabs), b) == i
  {
    ContainsIffCarved(slabs[i].start, slabs[i].blockSize, slabs[i].capacity, b);
    assert b in Models(slabs)[i].blocks;
    forall j | 0 <= j < i ensures b !in Models(slabs)[j].blocks {
      ContainsIffCarved(slabs[j].start, slabs[j].blockSize, slabs[j].capacity, b);
    }
  }

  lemma ContainedAtHome(slabs: seq<SlabRecord>, b: Addr)
    requires AllSound(slabs) && PoolHome(Models(slabs), b) < |slabs|
    ensures var r := slabs[PoolHome(Models(slabs), b)]; Contains(r.start, r.end, r.blockSize, b)
  {
    var r := slabs[PoolHome(Models(slabs), b)];
    ContainsIffCarved(r.start, r.blockSize, r.capacity, b);
  }

  lemma EmptyRecords()
    ensures Models([]) == [] && Starts([]) == [] && Ends([]) == [] && States([]) == [] && SlotsOf([]) == []
    ensures AllSound([]) && Disjoint([], []) && Sorted([], []) && Filed([], [], Buckets([], [], []))
  {
  }

  lemma UnfiledIsLoaned(slots: seq<Option<nat>>, filed: seq<SlabState>, buckets: Buckets, stale: nat, id: nat)
    requires FiledBut(slots, filed, buckets, stale) && id < |slots| && id != stale
    ensures slots[id].None? <==> filed[id] == Loaned
  {
    assert SlotOk(slots, filed, buckets, id);
  }

  lemma AppendKeepsShape(slabs: seq<SlabRecord>, r: SlabRecord)
    requires AllSound(slabs) && Disjoint(Starts(slabs), Ends(slabs)) && r.Shaped() && r.Consistent()
    requires forall i :: 0 <= i < |slabs| ==> slabs[i].end <= r.start || r.end <= slabs[i].start
    ensures AllSound(slabs + [r]) && Disjoint(Starts(slabs + [r]), Ends(slabs + [r]))
    ensures Models(slabs + [r]) == Models(slabs) + [r.Model()] && Starts(slabs + [r]) == Starts(slabs) + [r.start]
    ensures States(slabs + [r]) == States(slabs) + [r.state] && SlotsOf(slabs + [r]) == SlotsOf(slabs) + [r.slot]
  {
  }

  lemma LoanedJoinsNoBucket(slots: seq<Option<nat>>, filed: seq<SlabState>, buckets: Buckets)
    requires Filed(slots, filed, buckets)
    ensures Filed(slots + [None], filed + [Loaned], buckets)
  {
    var slots', filed', n := slots + [None], filed + [Loaned], |slots|;
    var stale := |slots'|;
    forall st, k | 0 <= k < |buckets.Of(st)| ensures EntryOk(slots', filed', buckets, stale, st, k) {
      assert EntryOk(slots, filed, buckets, n, st, k);
    }
    forall x | 0 <= x < |slots'| ensures SlotOk(slots', filed', buckets, x) {
      if x < n {
        assert SlotOk(slots, filed, buckets, x);
      }
    }
  }

  /** The slab that a reset of slab `id` leaves named by a bucket, or none. */
  function StaleAfterReset(filed: seq<SlabState>, id: nat): nat
    requires id < |filed|
  {
    if filed[id] == Loaned then |filed| else id
  }

  /**
   The branch of `register_slab` for a known span resets the record but leaves its bucket,
   so a slab that was not lent out becomes stale.
   */
  lemma ResetLeavesStale(slots: seq<Option<nat>>, filed: seq<SlabState>, buckets: Buckets, id: nat)
    requires Filed(slots, filed, buckets) && id < |slots|
    ensures FiledBut(slots[id := None], filed[id := Loaned], buckets, StaleAfterReset(filed, id))
  {
    var n, stale := |slots|, StaleAfterReset(filed, id);
    var slots', filed' := slots[id := None], filed[id := Loaned];
    assert SlotOk(slots, filed, buckets, id);
    forall st, k | 0 <= k < |buckets.Of(st)| ensures EntryOk(slots', filed', buckets, stale, st, k) {
      assert EntryOk(slots, filed, buckets, n, st, k);
    }
    forall x | 0 <= x < n && x != stale ensures SlotOk(slots', filed', buckets, x) {
      assert SlotOk(slots, filed, buckets, x);
    }
    if filed[id] != Loaned {
      assert Names(buckets, filed[id], slots[id].value, id);
    }
  }

  /** Buckets with a stale slab are never right. */
  lemma StaleIsNotFiled(slots: seq<Option<nat>>, filed: seq<SlabState>, buckets: Buckets, stale: nat)
    requires FiledBut(slots, filed, buckets, stale)
    ensures Filed(slots, filed, buckets) <==> stale >= |slots|
  {
    if stale < |slots| {
      var st, k :| Names(buckets, st, k, stale);
      assert !EntryOk(slots, filed, buckets, |slots|, st, k);
    } else {
      forall st, k | 0 <= k < |buckets.Of(st)| ensures EntryOk(slots, filed, buckets, |slots|, st, k) {
        assert EntryOk(slots, filed, buckets, stale, st, k);
      }
    }
  }

  /** Resetting a known record keeps the buckets right exactly when the slab was lent out. */
  lemma ResetIsCoherentIffLoaned(slots: seq<Option<nat>>, filed: seq<SlabState>, buckets: Buckets, id: nat)
    requires Filed(slots, filed, buckets) && id < |slots|
    ensures Filed(slots[id := None], filed[id := Loaned], buckets) <==> filed[id] == Loaned
  {
    ResetLeavesStale(slots, filed, buckets, id);
    StaleIsNotFiled(slots[id := None], filed[id := Loaned], buckets, StaleAfterReset(filed, id));
  }

  // ----- Results

  datatype CentralRefill = RefillEmpty | RefillBatch(blocks: seq<Addr>) | RefillSlab(start: Addr, blockSize: nat, capacity: nat)

  /** What a refill of this choice hands out, and the pool it leaves. */
  ghost predicate Refilled(pool: Pool, choice: Refill, max: nat, refill: CentralRefill, pool': Pool) {
    match choice
    case Empty => refill == RefillEmpty && pool' == pool
    case Batch(i) =>
      && i < |pool| && refill == RefillBatch(PartialBatch(pool[i], max))
      && pool' == pool[i := TakePartial(pool[i], max)]
    case Whole(i) =>
      && i < |pool| && refill.RefillSlab? && refill.start == pool[i].start
      && Arena.Carve(refill.start, refill.blockSize, refill.capacity) == pool[i].blocks
      && pool' == pool[i := Loan(pool[i])]
  }

  lemma GeometryStays(pool: Pool, mid: Pool, pool': Pool)
    requires SameGeometry(pool, mid)
    ensures SameGeometry(mid, pool') ==> SameGeometry(pool, pool')
  {
  }

  lemma NothingTouched(slabs: seq<SlabRecord>, pool: Pool, epoch: nat)
    ensures Touched(slabs, slabs, HomesOf(pool, []), epoch) && SameGeometry(pool, pool)
  {
  }

  lemma TouchedThen(slabs: seq<SlabRecord>, mid: seq<SlabRecord>, slabs': seq<SlabRecord>, ids: set<nat>, id: nat, epoch: nat)
    requires Touched(slabs, mid, ids, epoch) && Touched(mid, slabs', {id}, epoch)
    ensures Touched(slabs, slabs', ids + {id}, epoch)
  {
  }

  /** Exactly the slabs of `ids` were touched in this epoch. */
  ghost predicate Touched(slabs: seq<SlabRecord>, slabs': seq<SlabRecord>, ids: set<nat>, epoch: nat) {
    && |slabs'| == |slabs|
    && (forall i :: 0 <= i < |slabs| ==> slabs'[i].lastTouched == if i in ids then epoch else slabs[i].lastTouched)
  }

  // ----- Sweeping

  /**
   Slab `i`, hot, full and untouched for four epochs, has exactly its whole pages advised, and
   it turns cold exactly when the system took the advice.
   */
  ghost predicate SweptSlab(slabs: seq<SlabRecord>, i: nat, epoch: nat, advised: bool, page: nat,
                            range: Option<(Addr, nat)>, pool: Pool)
    requires page > 0
  {
    && i < |slabs| && slabs[i].Shaped() && slabs[i].IsSweepCandidate(epoch)
    && range == Arena.PageAlignedInnerRange(slabs[i].start, slabs[i].blockSize * slabs[i].capacity, page)
    && pool == if advised then Models(slabs)[i := slabs[i].Model().(state := FullCold)] else Models(slabs)
  }

  /** What a sweep looks at: the records, the hot bucket, the cursor and the epoch. */
  datatype Scan = Scan(slabs: seq<SlabRecord>, hot: seq<nat>, cursor: nat, epoch: nat) {
    /** The hot bucket names every hot slab once, at its recorded slot, and besides only a slab `stale`. */
    ghost predicate HotBucket(stale: nat) {
      && Inside(cursor, |hot|)
      && (forall k :: 0 <= k < |hot| ==>
            && hot[k] < |slabs|
            && (hot[k] == stale || (slabs[hot[k]].state == FullHot && slabs[hot[k]].slot == Some(k))))
      && (forall i :: 0 <= i < |slabs| && i != stale && slabs[i].state == FullHot ==> i in hot)
    }

    /** The slabs a sweep looks at, in order: the next ones from the cursor on, around the bucket. */
    function Turns(): (ids: seq<nat>)
      ensures |ids| == Min(SWEEP_SCAN_BUDGET, |hot|)
      ensures forall k :: 0 <= k < |ids| ==> ids[k] == hot[Around(cursor, k, |hot|)]
    {
      seq(Min(SWEEP_SCAN_BUDGET, |hot|), k requires 0 <= k < Min(SWEEP_SCAN_BUDGET, |hot|) => hot[Around(cursor, k, |hot|)])
    }

    ghost predicate SweepableAt(k: nat, page: nat)
      requires page > 0
    {
      k < |Turns()| && Turns()[k] < |slabs| && Sweepable(slabs[Turns()[k]], epoch, page)
    }

    function AfterTurns(k: nat): Scan
      requires hot != []
    {
      this.(cursor := Around(cursor, k, |hot|))
    }

    lemma TurnIs(k: nat, page: nat)
      requires page > 0 && k < Min(SWEEP_SCAN_BUDGET, |hot|) && hot[Around(cursor, k, |hot|)] < |slabs|
      ensures |Turns()| == Min(SWEEP_SCAN_BUDGET, |hot|) && Turns()[k] == hot[Around(cursor, k, |hot|)]
      ensures SweepableAt(k, page) <==> Sweepable(slabs[Turns()[k]], epoch, page)
    {
    }

    /** The first turn whose slab is old enough and holds a whole page, or the number of turns. */
    ghost function FirstSweepable(page: nat): (n: nat)
      requires page > 0
      ensures n <= |Turns()| && (n < |Turns()| ==> SweepableAt(n, page))
      ensures forall k :: 0 <= k < n ==> !SweepableAt(k, page)
    {
      FirstWhere(Turns(), (id: nat) => id < |slabs| && Sweepable(slabs[id], epoch, page))
    }
  }

  predicate Sweepable(r: SlabRecord, epoch: nat, page: nat)
    requires page > 0
  {
    r.IsSweepCandidate(epoch) && Arena.PageAlignedInnerRange(r.start, r.blockSize * r.capacity, page).Some?
  }

  function HotCount(state: SlabState): nat { if state == FullHot then 1 else 0 }

  /** `normalize_sweep_cursor` for a bucket of `n` slabs. */
  function Wrapped(cursor: nat, n: nat): nat { if n == 0 then 0 else cursor % n }

  /** A cursor a bucket of `n` slabs may have. */
  predicate Inside(cursor: nat, n: nat) { if n == 0 then cursor == 0 else cursor < n }

  lemma WrappedInside(cursor: nat, n: nat)
    ensures Inside(Wrapped(cursor, n), n)
    ensures Inside(cursor, n) ==> Wrapped(cursor, n) == cursor
  {
  }

  /** A slab leaves a bucket of `n` slabs, if `n'` is smaller, or joins one. */
  lemma WrappedTwice(cursor: nat, n: nat, mid: nat, n': nat)
    requires Inside(cursor, n) && (mid == n <= n' || n' == mid)
    ensures Wrapped(Wrapped(cursor, mid), n') == Wrapped(cursor, n')
  {
    WrappedInside(cursor, n);
    WrappedInside(cursor, mid);
    WrappedInside(Wrapped(cursor, mid), mid);
    WrappedInside(cursor, n');
  }

  /** The slot of the bucket `k` slabs on from the cursor. */
  function Around(cursor: nat, k: nat, n: nat): (slot: nat)
    requires n > 0
    ensures slot < n
  {
    (cursor + k) % n
  }

  lemma FirstTurn(cursor: nat, n: nat)
    requires Inside(cursor, n) && n > 0
    ensures Around(cursor, 0, n) == cursor
  {
    SizeClasses.DivModUnique(cursor, 0, cursor, n);
  }

  /** One more turn moves the cursor one slab on. */
  lemma NextTurn(cursor: nat, n: nat, k: nat)
    requires Inside(cursor, n) && k < Min(SWEEP_SCAN_BUDGET, n)
    ensures Around(cursor, k, n) % n == Around(cursor, k, n)
    ensures (Around(cursor, k, n) + 1) % n == Around(cursor, k + 1, n) && Inside(Around(cursor, k + 1, n), n)
  {
    if cursor + k < n {
      SizeClasses.DivModUnique(cursor + k, 0, cursor + k, n);
    } else {
      SizeClasses.DivModUnique(cursor + k, 1, 0, n);
      SizeClasses.DivModUnique(cursor + k + 1, 1, 1, n);
      SizeClasses.DivModUnique(1, 0, 1, n);
    }
  }

  /**
   What one sweep does: in a 64th epoch it takes turns up to the first slab old enough to hold a
   whole page and advises that one's pages, or finds none; in other epochs nothing changes. The
   cursor moves past the slabs looked at.
   */
  ghost predicate SweptBy(scan: Scan, advised: bool, page: nat, range: Option<(Addr, nat)>, pool: Pool, cursor: nat)
    requires page > 0
  {
    if scan.epoch % SWEEP_INTERVAL != 0 || scan.hot == [] then
      range == None && pool == Models(scan.slabs) && cursor == scan.cursor
    else
      var n, total := scan.FirstSweepable(page), |scan.hot|;
      if n == |scan.Turns()| then
        range == None && pool == Models(scan.slabs) && cursor == Around(scan.cursor, n, total)
      else
        && SweptSlab(scan.slabs, scan.Turns()[n], scan.epoch, advised, page, range, pool) && range.Some?
        && cursor == Wrapped(Around(scan.cursor, n + 1, total), if advised then total - 1 else total)
  }

  /** What is advised belongs to one of the next two hot slabs, untouched for four epochs, and only in a 64th epoch. */
  lemma SweptIsOld(scan: Scan, advised: bool, page: nat, range: Option<(Addr, nat)>, pool: Pool, cursor: nat)
    requires page > 0 && SweptBy(scan, advised, page, range, pool, cursor) && range.Some?
    ensures scan.epoch % 64 == 0
    ensures exists n: nat ::
              && n < 2 && n < |scan.Turns()| && scan.Turns()[n] < |scan.slabs|
              && AdvisedOld(scan.slabs[scan.Turns()[n]], scan.epoch, page, range)
  {
    var n := scan.FirstSweepable(page);
    SweptSlabIsOld(scan.slabs, scan.Turns()[n], scan.epoch, advised, page, range, pool);
  }

  /** The range is that of a hot slab not touched for four epochs. */
  predicate AdvisedOld(r: SlabRecord, epoch: nat, page: nat, range: Option<(Addr, nat)>)
    requires page > 0
  {
    && r.state == FullHot && r.lastTouched + 4 <= epoch
    && range == Arena.PageAlignedInnerRange(r.start, r.blockSize * r.capacity, page)
  }

  lemma SweptSlabIsOld(slabs: seq<SlabRecord>, i: nat, epoch: nat, advised: bool, page: nat, range: Option<(Addr, nat)>, pool: Pool)
    requires page > 0 && SweptSlab(slabs, i, epoch, advised, page, range, pool)
    ensures i < |slabs| && AdvisedOld(slabs[i], epoch, page, range)
  {
  }

  /** And if nothing is advised in such an epoch, neither of the next two hot slabs was fit for it. */
  lemma UnsweptAreUnfit(scan: Scan, advised: bool, page: nat, pool: Pool, cursor: nat, k: nat)
    requires page > 0 && SweptBy(scan, advised, page, None, pool, cursor) && scan.epoch % 64 == 0
    requires k < 2 && k < |scan.hot| && scan.hot[(scan.cursor + k) % |scan.hot|] < |scan.slabs|
    ensures var r := scan.slabs[scan.hot[(scan.cursor + k) % |scan.hot|]];
            || r.state != FullHot || scan.epoch < r.lastTouched + 4
            || Arena.PageAlignedInnerRange(r.start, r.blockSize * r.capacity, page).None?
  {
    hide Arena.PageAlignedInnerRange;
    assert scan.Turns()[k] == scan.hot[Around(scan.cursor, k, |scan.hot|)];
    assert !scan.SweepableAt(k, page);
  }

  lemma HotBucketInside(scan: Scan, stale: nat)
    requires scan.HotBucket(stale)
    ensures Inside(scan.cursor, |scan.hot|)
  {
  }

  lemma SweepNotDue(scan: Scan, advised: bool, page: nat)
    requires page > 0
    ensures scan.epoch % SWEEP_INTERVAL != 0 || scan.hot == [] ==>
              SweptBy(scan, advised, page, None, Models(scan.slabs), scan.cursor)
    ensures Touched(scan.slabs, scan.slabs, {}, scan.epoch)
  {
  }

  lemma NothingSwept(scan: Scan, advised: bool, page: nat)
    requires page > 0 && scan.epoch % SWEEP_INTERVAL == 0 && scan.hot != []
    requires forall k :: 0 <= k < |scan.Turns()| ==> !scan.SweepableAt(k, page)
    ensures SweptBy(scan, advised, page, None, Models(scan.slabs), Around(scan.cursor, |scan.Turns()|, |scan.hot|))
  {
    assert scan.FirstSweepable(page) == |scan.Turns()|;
  }

  lemma SweptInTurn(scan: Scan, n: nat, advised: bool, page: nat, range: Option<(Addr, nat)>, pool: Pool)
    requires page > 0 && scan.epoch % SWEEP_INTERVAL == 0 && scan.hot != [] && range.Some?
    requires n < |scan.Turns()| && scan.SweepableAt(n, page) && forall k :: 0 <= k < n ==> !scan.SweepableAt(k, page)
    requires SweptSlab(scan.slabs, scan.Turns()[n], scan.epoch, advised, page, range, pool)
    ensures SweptBy(scan, advised, page, range, pool,
                    Wrapped(Around(scan.cursor, n + 1, |scan.hot|), if advised then |scan.hot| - 1 else |scan.hot|))
  {
    assert scan.FirstSweepable(page) == n;
  }

  // ----- Registering

  /** The records after `register_slab` without its sweep: a known span's record is reset in place. */
  function RegisteredAs(slabs: seq<SlabRecord>, r: SlabRecord): seq<SlabRecord> {
    var i := FirstWhere(slabs, (x: SlabRecord) => x.start == r.start);
    if i < |slabs| then slabs[i := r] else slabs + [r]
  }

  lemma RegisteredIs(slabs: seq<SlabRecord>, r: SlabRecord, id: nat)
    requires Disjoint(Starts(slabs), Ends(slabs))
    requires if id < |slabs| then slabs[id].start == r.start else r.start !in Starts(slabs)
    ensures RegisteredAs(slabs, r) == if id < |slabs| then slabs[id := r] else slabs + [r]
    ensures PoolAt(Models(slabs), r.start) == if id < |slabs| then id else |slabs|
  {
    forall j | 0 <= j < |slabs| && j != id ensures slabs[j].start != r.start {
      assert Starts(slabs)[j] == slabs[j].start && Starts(slabs)[j] in Starts(slabs);
      if id < |slabs| {
        assert Starts(slabs)[id] == r.start;
      }
    }
  }

  class ClassPool {
    var slabs: seq<SlabRecord>
    var slabsByStart: seq<nat>
    var partialSlabs: seq<nat>
    var fullHotSlabs: seq<nat>
    var fullColdSlabs: seq<nat>
    var epoch: nat
    var sweepCursor: nat
    var recentSlab: Option<nat>

    ghost function Model(): Pool
      reads this
    {
      Models(slabs)
    }

    function AllBuckets(): Buckets
      reads this
    {
      Buckets(partialSlabs, fullHotSlabs, fullColdSlabs)
    }

    ghost predicate Indexed()
      reads this
    {
      && AllSound(slabs) && Disjoint(Starts(slabs), Ends(slabs)) && Sorted(Starts(slabs), slabsByStart)
      && (recentSlab.Some? ==> recentSlab.value < |slabs|)
    }

    ghost predicate CursorOk()
      reads this
    {
      Inside(sweepCursor, |fullHotSlabs|)
    }

    /** The buckets are right, but for a stale slab, for slabs filed as `filed` says. */
    ghost predicate FiledAs(filed: seq<SlabState>, stale: nat)
      reads this
    {
      |filed| == |slabs| && FiledBut(SlotsOf(slabs), filed, AllBuckets(), stale) && CursorOk()
    }

    /** What a sweep run now would look at. */
    ghost function AtScan(): Scan
      reads this
    {
      Scan(slabs, fullHotSlabs, sweepCursor, epoch)
    }

    /** Every slab but a stale one is in the bucket of its state, at its recorded slot. */
    ghost predicate ValidBut(stale: nat)
      reads this
    {
      Indexed() && FiledAs(States(slabs), stale)
    }

    /** Every slab is in the bucket of its state, at its recorded slot. */
    ghost predicate Valid()
      reads this
    {
      ValidBut(|slabs|)
    }

    /** The call ended with one sweep of `mid`, and had only wrapped its cursor, `cursor`, before. */
    ghost predicate EndsWithSweep(mid: Scan, cursor: nat, stale: nat, advised: bool, page: nat, range: Option<(Addr, nat)>)
      requires page > 0
      reads this
    {
      && mid.epoch == epoch && mid.HotBucket(stale) && mid.cursor == Wrapped(cursor, |mid.hot|)
      && SweptBy(mid, advised, page, range, Model(), sweepCursor) && Touched(mid.slabs, slabs, {}, epoch)
    }

    constructor ()
      ensures Valid() && Model() == []
    {
      hide AllSound, Disjoint, Sorted, Filed, Models, Starts, Ends, States, SlotsOf;
      slabs, slabsByStart, partialSlabs, fullHotSlabs, fullColdSlabs := [], [], [], [], [];
      epoch, sweepCursor, recentSlab := 0, 0, None;
      new;
      EmptyRecords();
    }

    method NormalizeSweepCursor()
      modifies this`sweepCursor
      ensures CursorOk() && sweepCursor == Wrapped(old(sweepCursor), |fullHotSlabs|)
    {
      if fullHotSlabs == [] {
        sweepCursor := 0;
      } else {
        sweepCursor := sweepCursor % |fullHotSlabs|;
      }
    }

    method SetBucket(state: SlabState, bucket: seq<nat>)
      modifies this`partialSlabs, this`fullHotSlabs, this`fullColdSlabs
      ensures AllBuckets() == old(AllBuckets()).With(state, bucket)
      ensures fullHotSlabs == if state == FullHot then bucket else old(fullHotSlabs)
    {
      match state
      case Loaned =>
      case Partial => partialSlabs := bucket;
      case FullHot => fullHotSlabs := bucket;
      case FullCold => fullColdSlabs := bucket;
    }

    /** `remove_from_bucket`. */
    method RemoveFromBucket(id: nat, state: SlabState, ghost filed: seq<SlabState>, ghost stale: nat)
      requires FiledAs(filed, stale) && id < |slabs| && id != stale && filed[id] == state
      modifies this`slabs, this`partialSlabs, this`fullHotSlabs, this`fullColdSlabs, this`sweepCursor
      ensures FiledAs(filed[id := Loaned], stale) && SameButSlots(old(slabs), slabs)
      ensures old(slabs[id]).slot.None? ==> AllBuckets() == old(AllBuckets())
      ensures var slot, bucket := old(slabs[id]).slot, old(AllBuckets()).Of(state);
              slot.Some? ==> slot.value < |bucket| && AllBuckets() == old(AllBuckets()).With(state, SwapRemove(bucket, slot.value))
      ensures |fullHotSlabs| == old(|fullHotSlabs|) - HotCount(state)
      ensures sweepCursor == Wrapped(old(sweepCursor), |fullHotSlabs|)
    {
      hide FiledBut, SlotsOf, Buckets.With, Wrapped, Inside;
      WrappedInside(sweepCursor, |fullHotSlabs|);
      UnfiledIsLoaned(SlotsOf(slabs), filed, AllBuckets(), stale, id);
      if slabs[id].slot.None? {
        assert filed[id := Loaned] == filed;
        return;
      }
      var slot, bucket := slabs[id].slot.value, AllBuckets().Of(state);
      RemoveKeepsFiled(SlotsOf(slabs), filed, AllBuckets(), stale, id);
      var last := bucket[|bucket| - 1];
      slabs := slabs[id := slabs[id].(slot := None)];
      SetBucket(state, SwapRemove(bucket, slot));
      if slot < |bucket| - 1 {
        slabs := slabs[last := slabs[last].(slot := Some(slot))];
      }
      assert SlotsOf(slabs) == SlotsAfterRemove(SlotsOf(old(slabs)), bucket, id, slot);
      NormalizeSweepCursor();
    }

    /** `add_to_bucket`. */
    method AddToBucket(id: nat, state: SlabState, ghost filed: seq<SlabState>, ghost stale: nat)
      requires FiledAs(filed, stale) && id < |slabs| && id != stale && filed[id] == Loaned
      modifies this`slabs, this`partialSlabs, this`fullHotSlabs, this`fullColdSlabs, this`sweepCursor
      ensures FiledAs(filed[id := state], stale) && SameButSlots(old(slabs), slabs)
      ensures AllBuckets() == if state == Loaned then old(AllBuckets())
                              else old(AllBuckets()).With(state, old(AllBuckets()).Of(state) + [id])
      ensures |fullHotSlabs| == old(|fullHotSlabs|) + HotCount(state)
      ensures sweepCursor == Wrapped(old(sweepCursor), |fullHotSlabs|)
    {
      hide FiledBut, SlotsOf, Buckets.With, Wrapped, Inside;
      WrappedInside(sweepCursor, |fullHotSlabs|);
      UnfiledIsLoaned(SlotsOf(slabs), filed, AllBuckets(), stale, id);
      if state == Loaned {
        slabs := slabs[id := slabs[id].(slot := None)];
        assert slabs == old(slabs) && filed[id := state] == filed;
        return;
      }
      var bucket := AllBuckets().Of(state);
      AddKeepsFiled(SlotsOf(slabs), filed, AllBuckets(), stale, id, state);
      SetBucket(state, bucket + [id]);
      slabs := slabs[id := slabs[id].(slot := Some(|bucket|))];
      assert SlotsOf(slabs) == SlotsOf(old(slabs))[id := Some(|bucket|)];
      NormalizeSweepCursor();
    }

    /** `reconcile_bucket_transition`: a slab whose record moved on is filed again under its state. */
    method Reconcile(id: nat, previous: SlabState, ghost stale: nat)
      requires Indexed() && id < |slabs| && id != stale && FiledAs(States(slabs)[id := previous], stale)
      modifies this`slabs, this`partialSlabs, this`fullHotSlabs, this`fullColdSlabs, this`sweepCursor
      ensures ValidBut(stale) && SameButSlots(old(slabs), slabs) && Model() == old(Model())
      ensures |fullHotSlabs| == old(|fullHotSlabs|) - HotCount(previous) + HotCount(old(slabs[id].state))
      ensures sweepCursor == Wrapped(old(sweepCursor), |fullHotSlabs|)
    {
      hide FiledBut, SlotsOf, AllSound, Disjoint, Sorted, Models, Starts, Ends, States, Wrapped, Inside;
      WrappedInside(sweepCursor, |fullHotSlabs|);
      var state := slabs[id].state;
      assert States(slabs)[id] == state;
      if previous == state {
        assert States(slabs)[id := previous] == States(slabs);
        return;
      }
      ghost var filed := States(slabs)[id := previous];
      RemoveFromBucket(id, previous, filed, stale);
      SlotsAreInvisible(old(slabs), slabs);
      ghost var mid, hot := slabs, |fullHotSlabs|;
      AddToBucket(id, state, filed[id := Loaned], stale);
      SlotsAreInvisible(mid, slabs);
      WrappedTwice(old(sweepCursor), old(|fullHotSlabs|), hot, |fullHotSlabs|);
      assert filed[id := Loaned][id := state] == States(slabs);
    }

    /** A slab record moves on, and is filed under its new state. */
    method Transition(id: nat, r: SlabRecord, ghost stale: nat)
      requires ValidBut(stale) && id < |slabs| && id != stale && r.Shaped() && r.Consistent()
      requires r.start == slabs[id].start && r.end == slabs[id].end && r.slot == slabs[id].slot
      modifies this`slabs, this`partialSlabs, this`fullHotSlabs, this`fullColdSlabs, this`sweepCursor
      ensures ValidBut(stale) && Model() == old(Model())[id := r.Model()]
      ensures SameButSlots(old(slabs)[id := r], slabs)
      ensures |fullHotSlabs| == old(|fullHotSlabs|) - HotCount(old(slabs[id].state)) + HotCount(r.state)
      ensures sweepCursor == Wrapped(old(sweepCursor), |fullHotSlabs|)
    {
      hide FiledBut, SlotsOf, AllSound, Disjoint, Sorted, Models, Starts, Ends, States;
      var previous := slabs[id].state;
      RecordsUpdate(slabs, id, r);
      slabs := slabs[id := r];
      assert States(slabs)[id := previous] == States(old(slabs));
      Reconcile(id, previous, stale);
    }

    /** The shortcut and the index lookup find the slab a linear scan finds. */
    method FindSlabId(b: Addr) returns (id: nat)
      requires Indexed() && PoolHome(Model(), b) < |slabs|
      modifies this`recentSlab
      ensures Indexed() && id == PoolHome(Model(), b) && recentSlab == Some(id)
    {
      var r := recentSlab;
      if r.Some? && Contains(slabs[r.value].start, slabs[r.value].end, slabs[r.value].blockSize, b) {
        PoolHomeIs(slabs, b, r.value);
        return r.value;
      }
      var n := PartitionPoint(Starts(slabs), slabsByStart, b);
      ContainedAtHome(slabs, b);
      OnlyCandidate(Starts(slabs), Ends(slabs), slabsByStart, b, n, PoolHome(Model(), b));
      id := slabsByStart[n - 1];
      recentSlab := Some(id);
    }

    /**
     `maybe_sweep`: every 64th epoch at most two hot full slabs are looked at, and the first
     old enough to hold a whole page has its pages advised; `advised` is the system's answer.
     */
    method MaybeSweep(advised: bool, page: nat, ghost stale: nat) returns (range: Option<(Addr, nat)>)
      requires ValidBut(stale) && page > 0
      modifies this`slabs, this`partialSlabs, this`fullHotSlabs, this`fullColdSlabs, this`sweepCursor
      ensures ValidBut(stale) && Touched(old(slabs), slabs, {}, epoch) && |slabs| == old(|slabs|)
      ensures old(AtScan()).HotBucket(stale) && SweptBy(old(AtScan()), advised, page, range, Model(), sweepCursor)
    {
      hide ValidBut, Models, Wrapped, Around, SweptSlab, SweptBy, Sweepable, Touched, Scan.HotBucket, Scan.Turns, Scan.SweepableAt;
      ghost var scan := AtScan();
      ScanIsHot(stale);
      SweepNotDue(scan, advised, page);
      if epoch % SWEEP_INTERVAL != 0 || fullHotSlabs == [] {
        return None;
      }
      HotBucketInside(scan, stale);
      FirstTurn(sweepCursor, |fullHotSlabs|);
      for k := 0 to Min(SWEEP_SCAN_BUDGET, |fullHotSlabs|)
        invariant ValidBut(stale) && AtScan() == scan.AfterTurns(k)
        invariant forall j :: 0 <= j < k ==> !scan.SweepableAt(j, page)
      {
        range := SweepTurn(scan, k, advised, page, stale);
        if range.Some? {
          SweptInTurn(scan, k, advised, page, range, Model());
          return;
        }
      }
      NothingSwept(scan, advised, page);
      range := None;
    }

    /** One turn of a sweep: the next slab is advised if it is old enough and holds a whole page. */
    method SweepTurn(ghost scan: Scan, ghost k: nat, advised: bool, page: nat, ghost stale: nat)
      returns (range: Option<(Addr, nat)>)
      requires ValidBut(stale) && page > 0 && k < Min(SWEEP_SCAN_BUDGET, |scan.hot|)
      requires Inside(scan.cursor, |scan.hot|) && AtScan() == scan.AfterTurns(k)
      modifies this`slabs, this`partialSlabs, this`fullHotSlabs, this`fullColdSlabs, this`sweepCursor
      ensures ValidBut(stale) && Touched(scan.slabs, slabs, {}, epoch) && |slabs| == |scan.slabs|
      ensures range.Some? <==> scan.SweepableAt(k, page)
      ensures range.None? ==> AtScan() == scan.AfterTurns(k + 1)
      ensures range.Some? ==>
                && k < |scan.Turns()| && SweptSlab(scan.slabs, scan.Turns()[k], epoch, advised, page, range, Model())
                && sweepCursor == Wrapped(Around(scan.cursor, k + 1, |scan.hot|), if advised then |scan.hot| - 1 else |scan.hot|)
    {
      hide FiledBut, SlotsOf, AllSound, Disjoint, Sorted, Models, Starts, Ends, States, Wrapped, Around, Scan.Turns;
      var total := |fullHotSlabs|;
      var slot := sweepCursor % total;
      NextTurn(scan.cursor, total, k);
      var id := fullHotSlabs[slot];
      HotEntry(slot, stale);
      scan.TurnIs(k, page);
      sweepCursor := (slot + 1) % total;
      WrappedInside(sweepCursor, total);
      SoundRecord(id);
      var r := slabs[id];
      if !r.IsSweepCandidate(epoch) {
        return None;
      }
      range := Arena.PageAlignedInnerRange(r.start, r.end - r.start, page);
      if range.Some? && advised {
        Transition(id, r.(state := FullCold), stale);
      }
    }

    lemma HotEntry(k: nat, stale: nat)
      requires ValidBut(stale) && k < |fullHotSlabs|
      ensures fullHotSlabs[k] < |slabs| && slabs[fullHotSlabs[k]].state == if fullHotSlabs[k] == stale then Loaned else FullHot
    {
      FiledEntry(FullHot, k, stale);
    }

    lemma ScanIsHot(stale: nat)
      requires ValidBut(stale)
      ensures AtScan().HotBucket(stale)
    {
      forall k | 0 <= k < |fullHotSlabs|
        ensures fullHotSlabs[k] < |slabs|
        ensures fullHotSlabs[k] == stale || (slabs[fullHotSlabs[k]].state == FullHot && slabs[fullHotSlabs[k]].slot == Some(k))
      {
        assert EntryOk(SlotsOf(slabs), States(slabs), AllBuckets(), stale, FullHot, k);
      }
      forall i | 0 <= i < |slabs| && i != stale && slabs[i].state == FullHot ensures i in fullHotSlabs {
        assert SlotOk(SlotsOf(slabs), States(slabs), AllBuckets(), i);
      }
    }

    /** An entry of a bucket is a slab in that state, or a stale loaned one. */
    lemma FiledEntry(state: SlabState, k: nat, stale: nat)
      requires ValidBut(stale) && k < |AllBuckets().Of(state)|
      ensures var id := AllBuckets().Of(state)[k];
              id < |slabs| && slabs[id].state == if id == stale then Loaned else state
    {
      assert EntryOk(SlotsOf(slabs), States(slabs), AllBuckets(), stale, state, k);
    }

    lemma SoundRecord(id: nat)
      requires Indexed() && id < |slabs|
      ensures slabs[id].Shaped() && slabs[id].Consistent() && Model()[id] == slabs[id].Model()
    {
    }

    /**
     `return_batch`: every block reaches the slab it was carved in. `mid` is what the sweep
     looks at.
     */
    method ReturnBatch(batch: seq<Addr>, advised: bool, page: nat)
      returns (range: Option<(Addr, nat)>, ghost mid: Scan)
      requires Valid() && Returnable(Model(), batch) && page > 0
      modifies this
      ensures Valid() && epoch == old(epoch) + if batch == [] then 0 else 1
      ensures Models(mid.slabs) == PoolModel.ReturnBatch(old(Model()), batch) && |mid.slabs| == old(|slabs|)
      ensures forall i :: 0 <= i < |mid.slabs| ==>
                Returned(old(Model())[i], Homed(old(Model()), batch, i), Models(mid.slabs)[i])
      ensures Touched(old(slabs), mid.slabs, HomesOf(old(Model()), batch), epoch)
      ensures if batch == [] then range == None && mid == old(AtScan()) == AtScan()
              else EndsWithSweep(mid, old(sweepCursor), |slabs|, advised, page, range)
      ensures recentSlab == if batch == [] then old(recentSlab) else Some(PoolHome(old(Model()), batch[|batch| - 1]))
    {
      hide FiledBut, SlotsOf, AllSound, Disjoint, Sorted, Models, Starts, Ends, States, ReturnBlock, PoolHome, Returned, SweptBy, Scan.HotBucket, Wrapped, Inside, SameGeometry, Touched, HomesOf, Homed;
      mid := AtScan();
      EverySlabReturns(Model(), batch);
      NothingTouched(slabs, Model(), if batch == [] then epoch else epoch + 1);
      assert batch[..0] == [];
      if batch == [] {
        return None, mid;
      }
      epoch := epoch + 1;
      for k := 0 to |batch|
        invariant Valid() && Returnable(Model(), batch[k..]) && epoch == old(epoch) + 1
        invariant PoolModel.ReturnBatch(Model(), batch[k..]) == PoolModel.ReturnBatch(old(Model()), batch)
        invariant SameGeometry(old(Model()), Model()) && |slabs| == old(|slabs|)
        invariant Touched(old(slabs), slabs, HomesOf(old(Model()), batch[..k]), epoch)
        invariant sweepCursor == old(sweepCursor) && |fullHotSlabs| >= old(|fullHotSlabs|)
        invariant k > 0 ==> recentSlab == Some(PoolHome(old(Model()), batch[k - 1]))
      {
        assert batch[k..][1..] == batch[k + 1..];
        HomesOfNext(old(Model()), Model(), batch, k);
        SameHome(old(Model()), Model(), batch[k]);
        GeometryStays(old(Model()), Model(), ReturnBlock(Model(), batch[k]));
        ghost var before := slabs;
        ReturnOne(batch[k]);
        TouchedThen(old(slabs), before, slabs, HomesOf(old(Model()), batch[..k]), PoolHome(old(Model()), batch[k]), epoch);
      }
      assert batch[|batch|..] == [] && batch[..|batch|] == batch;
      mid := AtScan();
      WrappedInside(sweepCursor, |fullHotSlabs|);
      range := MaybeSweep(advised, page, |slabs|);
    }

    method ReturnOne(b: Addr)
      requires Valid() && ReturnableBlock(Model(), b)
      modifies this`slabs, this`partialSlabs, this`fullHotSlabs, this`fullColdSlabs, this`sweepCursor, this`recentSlab
      ensures Valid() && Model() == ReturnBlock(old(Model()), b) && SameGeometry(old(Model()), Model())
      ensures |slabs| == old(|slabs|)
      ensures Touched(old(slabs), slabs, {PoolHome(old(Model()), b)}, epoch)
      ensures sweepCursor == old(sweepCursor) && |fullHotSlabs| >= old(|fullHotSlabs|)
      ensures recentSlab == Some(PoolHome(old(Model()), b))
    {
      hide FiledBut, SlotsOf, AllSound, Disjoint, Sorted, Models, Starts, Ends, States, Wrapped, PoolHome;
      var id := FindSlabId(b);
      recentSlab := Some(id);
      SoundRecord(id);
      var r := slabs[id].(lastTouched := epoch);
      RecordReturnedIs(r, b);
      Transition(id, RecordReturned(r, b), |slabs|);
      WrappedInside(old(sweepCursor), |fullHotSlabs|);
    }

    /** The slab filed last of the first bucket that has one: partial, then hot, then cold. */
    ghost function LatestChoice(): Refill
      reads this
    {
      if partialSlabs != [] then Batch(partialSlabs[|partialSlabs| - 1])
      else if fullHotSlabs != [] then Whole(fullHotSlabs[|fullHotSlabs| - 1])
      else if fullColdSlabs != [] then Whole(fullColdSlabs[|fullColdSlabs| - 1])
      else Empty
    }

    /** `take_refill`: partial slabs first, then hot full ones, then cold ones. `mid` is what the sweep looks at. */
    method TakeRefill(max: nat, advised: bool, page: nat)
      returns (refill: CentralRefill, range: Option<(Addr, nat)>, ghost choice: Refill, ghost mid: Scan)
      requires Valid() && page > 0
      modifies this
      ensures Valid() && epoch == old(epoch) + if max == 0 then 0 else 1
      ensures max == 0 ==> refill == RefillEmpty && range == None && mid == old(AtScan()) == AtScan()
      ensures max > 0 ==>
                && RefillChoice(old(Model()), choice) && Refilled(old(Model()), choice, max, refill, Models(mid.slabs))
                && Touched(old(slabs), mid.slabs, ChosenSlab(choice), epoch)
                && EndsWithSweep(mid, old(sweepCursor), |slabs|, advised, page, range)
      ensures max > 0 ==> choice == old(LatestChoice())
      ensures recentSlab == if max == 0 || choice.Empty? then old(recentSlab) else Some(choice.slab)
    {
      hide FiledBut, SlotsOf, AllSound, Disjoint, Sorted, Models, Starts, Ends, States, SweptBy, Scan.HotBucket, RefillChoice;
      if max == 0 {
        return RefillEmpty, None, Empty, AtScan();
      }
      epoch := epoch + 1;
      choice := LatestChoice();
      LatestIsChoice();
      if partialSlabs != [] {
        var id := partialSlabs[|partialSlabs| - 1];
        refill := TakeFromPartial(id, max);
      } else if fullHotSlabs != [] {
        var id := fullHotSlabs[|fullHotSlabs| - 1];
        refill := LoanWholeSlab(id);
      } else if fullColdSlabs != [] {
        var id := fullColdSlabs[|fullColdSlabs| - 1];
        refill := LoanWholeSlab(id);
      } else {
        refill := RefillEmpty;
      }
      mid := AtScan();
      range := MaybeSweep(advised, page, |slabs|);
    }

    /** A refill of every choice but an empty one names the slab it is for, in the state it is for. */
    lemma LatestIsChoice()
      requires Valid()
      ensures RefillChoice(Model(), LatestChoice())
      ensures !LatestChoice().Empty? ==> LatestChoice().slab < |slabs|
      ensures LatestChoice().Batch? ==> slabs[LatestChoice().slab].state == Partial
      ensures LatestChoice().Whole? ==> slabs[LatestChoice().slab].state == FullHot || slabs[LatestChoice().slab].state == FullCold
    {
      hide Indexed, FiledAs;
      if partialSlabs != [] {
        BucketChoice(Partial);
      } else if fullHotSlabs != [] {
        BucketChoice(FullHot);
      } else if fullColdSlabs != [] {
        BucketChoice(FullCold);
      } else {
        NoChoice();
      }
    }

    /** The last slab of the first bucket that has one is what a refill may take. */
    lemma BucketChoice(state: SlabState)
      requires Valid() && state != Loaned && AllBuckets().Of(state) != []
      requires (state != Partial ==> partialSlabs == []) && (state == FullCold ==> fullHotSlabs == [])
      ensures var bucket := AllBuckets().Of(state);
              var id := bucket[|bucket| - 1];
              && id < |slabs| && slabs[id].state == state
              && RefillChoice(Model(), if state == Partial then Batch(id) else Whole(id))
    {
      hide FiledBut, SlotsOf, AllSound, Disjoint, Sorted, Models, Starts, Ends, States;
      var bucket := AllBuckets().Of(state);
      FiledEntry(state, |bucket| - 1, |slabs|);
      if state != Partial {
        NoneIn(Partial);
      }
      if state == FullCold {
        NoneIn(FullHot);
      }
    }

    lemma NoChoice()
      requires Valid() && partialSlabs == [] && fullHotSlabs == [] && fullColdSlabs == []
      ensures RefillChoice(Model(), Empty)
    {
      hide FiledBut, SlotsOf, AllSound, Disjoint, Sorted, Models, Starts, Ends, States;
      NoneIn(Partial);
      NoneIn(FullHot);
      NoneIn(FullCold);
    }

    /** An empty bucket means that no slab is in that state. */
    lemma NoneIn(state: SlabState)
      requires Valid() && state != Loaned && AllBuckets().Of(state) == []
      ensures forall i :: 0 <= i < |slabs| ==> Model()[i].state != state
    {
      forall i | 0 <= i < |slabs| ensures Model()[i].state != state {
        assert SlotOk(SlotsOf(slabs), States(slabs), AllBuckets(), i);
      }
    }

    method TakeFromPartial(id: nat, max: nat) returns (refill: CentralRefill)
      requires Valid() && id < |slabs| && slabs[id].state == Partial && max > 0
      modifies this
      ensures Valid() && epoch == old(epoch) && Model() == old(Model()[id := TakePartial(Model()[id], max)])
      ensures refill == RefillBatch(old(PartialBatch(Model()[id], max))) && recentSlab == Some(id)
      ensures Touched(old(slabs), slabs, {id}, epoch) && sweepCursor == Wrapped(old(sweepCursor), |fullHotSlabs|)
    {
      hide FiledBut, SlotsOf, AllSound, Disjoint, Sorted, Models, Starts, Ends, States;
      SoundRecord(id);
      var r := slabs[id];
      TakenFromIs(r, max);
      refill, recentSlab := RefillBatch(r.partialFree[..Min(max, |r.partialFree|)]), Some(id);
      TakenFromIs(r.(lastTouched := epoch), max);
      Transition(id, TakenFrom(r.(lastTouched := epoch), max), |slabs|);
    }

    /** `loan_whole_slab`: only the slab's geometry is handed out. */
    method LoanWholeSlab(id: nat) returns (refill: CentralRefill)
      requires Valid() && id < |slabs| && (slabs[id].state == FullHot || slabs[id].state == FullCold)
      modifies this
      ensures Valid() && epoch == old(epoch) && Model() == old(Model()[id := Loan(Model()[id])])
      ensures refill.RefillSlab? && refill.start == old(Model()[id].start) && recentSlab == Some(id)
      ensures Arena.Carve(refill.start, refill.blockSize, refill.capacity) == old(Model()[id].blocks)
      ensures Touched(old(slabs), slabs, {id}, epoch) && sweepCursor == Wrapped(old(sweepCursor), |fullHotSlabs|)
    {
      hide FiledBut, SlotsOf, AllSound, Disjoint, Sorted, Models, Starts, Ends, States;
      SoundRecord(id);
      var r := slabs[id];
      recentSlab := Some(id);
      refill := RefillSlab(r.start, r.blockSize, r.capacity);
      Transition(id, r.(state := Loaned, centralFreeLen := 0, lastTouched := epoch), |slabs|);
    }

    // ----- Registration

    /** The span is a known slab with this geometry, or disjoint from every known one. */
    ghost predicate KnownOrNew(start: Addr, blockSize: nat, capacity: nat)
      reads this
    {
      forall i :: 0 <= i < |slabs| ==>
        if slabs[i].start == start then slabs[i].blockSize == blockSize && slabs[i].capacity == capacity
        else slabs[i].end <= start || start + blockSize * capacity <= slabs[i].start
    }

    /**
     `register_slab`. A new span becomes a lent slab. The record of a known one is reset to lent,
     which keeps the buckets right exactly when it was lent already, and else leaves it `stale`. `mid` is what the sweep
     looks at.
     */
    method RegisterSlab(start: Addr, blockSize: nat, capacity: nat, advised: bool, page: nat)
      returns (range: Option<(Addr, nat)>, ghost mid: Scan, ghost stale: nat)
      requires Valid() && blockSize > 0 && capacity > 0 && page > 0 && KnownOrNew(start, blockSize, capacity)
      modifies this
      ensures Indexed() && epoch == old(epoch) + 1 && EndsWithSweep(mid, old(sweepCursor), stale, advised, page, range)
      ensures mid.slabs == RegisteredAs(old(slabs), NewRecord(start, blockSize, capacity, epoch))
      ensures Models(mid.slabs) == RegisterAny(old(Model()), start, Arena.Carve(start, blockSize, capacity))
      ensures Valid() <==> var i := PoolAt(old(Model()), start); i < |old(slabs)| ==> old(slabs)[i].state == Loaned
      ensures stale == if Valid() then |slabs| else PoolAt(old(Model()), start)
      ensures recentSlab == Some(PoolAt(old(Model()), start))
    {
      hide FiledBut, SlotsOf, AllSound, Disjoint, Sorted, Models, Starts, Ends, States, SweptBy, RegisteredAs, PoolAt, Scan.HotBucket, Wrapped, Inside;
      epoch := epoch + 1;
      var r := NewRecord(start, blockSize, capacity, epoch);
      var found, slot := BinarySearch(Starts(slabs), slabsByStart, start);
      if found {
        stale := ResetRecord(slabsByStart[slot], r);
      } else {
        AddRecord(slot, r);
        stale := |slabs|;
      }
      mid := AtScan();
      WrappedInside(sweepCursor, |fullHotSlabs|);
      range := MaybeSweep(advised, page, stale);
      StaleIsNotFiled(SlotsOf(slabs), States(slabs), AllBuckets(), stale);
    }

    method ResetRecord(id: nat, r: SlabRecord) returns (ghost stale: nat)
      requires Valid() && id < |slabs| && slabs[id].start == r.start && KnownOrNew(r.start, r.blockSize, r.capacity)
      requires r.Shaped() && r.Consistent() && r.state == Loaned && r.slot.None?
      modifies this`slabs, this`recentSlab
      ensures ValidBut(stale) && stale == StaleAfterReset(old(States(slabs)), id)
      ensures slabs == RegisteredAs(old(slabs), r) && PoolAt(old(Model()), r.start) == id && recentSlab == Some(id)
      ensures Model() == old(Model())[id := Loan(old(Model())[id])]
    {
      hide FiledBut, SlotsOf, Sorted, Models, Starts, Ends, States, Disjoint, RegisteredAs, PoolAt;
      RegisteredIs(slabs, r, id);
      SoundRecord(id);
      ResetLeavesStale(SlotsOf(slabs), States(slabs), AllBuckets(), id);
      stale := StaleAfterReset(States(slabs), id);
      recentSlab := Some(id);
      slabs := slabs[id := r];
      assert Starts(slabs) == Starts(old(slabs)) && Ends(slabs) == Ends(old(slabs));
      assert SlotsOf(slabs) == SlotsOf(old(slabs))[id := None] && States(slabs) == States(old(slabs))[id := Loaned];
    }

    method AddRecord(slot: nat, r: SlabRecord)
      requires Valid() && r.Shaped() && r.Consistent() && r.state == Loaned && r.slot.None?
      requires KnownOrNew(r.start, r.blockSize, r.capacity) && r.start !in Starts(slabs) && slot <= |slabsByStart|
      requires forall k :: 0 <= k < slot ==> Starts(slabs)[slabsByStart[k]] < r.start
      requires forall k :: slot <= k < |slabsByStart| ==> r.start < Starts(slabs)[slabsByStart[k]]
      modifies this`slabs, this`slabsByStart, this`recentSlab
      ensures Valid() && slabs == RegisteredAs(old(slabs), r) && PoolAt(old(Model()), r.start) == |old(slabs)|
      ensures Model() == old(Model()) + [r.Model()] && recentSlab == Some(|old(slabs)|)
    {
      hide FiledBut, SlotsOf, AllSound, Disjoint, Models, Ends, States, Insert, RegisteredAs, PoolAt;
      RegisteredIs(slabs, r, |slabs|);
      InsertKeepsSorted(Starts(slabs), slabsByStart, slot, r.start);
      AppendKeepsShape(slabs, r);
      LoanedJoinsNoBucket(SlotsOf(slabs), States(slabs), AllBuckets());
      recentSlab := Some(|slabs|);
      slabsByStart := Insert(slabsByStart, slot, |slabs|);
      slabs := slabs + [r];
    }

    /** `central_block_count`. */
    method CentralBlockCount() returns (n: nat)
      requires Valid()
      ensures n == CentralCount(Model())
    {
      n := 0;
      for i := 0 to |slabs|
        invariant n == CentralCount(Model()[..i])
      {
        assert Model()[..i + 1][..i] == Model()[..i];
        assert slabs[i].Consistent();
        n := n + slabs[i].centralFreeLen;
      }
      assert Model()[..|slabs|] == Model();
    }
  }
}
