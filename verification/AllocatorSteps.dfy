/**
 The steps of the allocator: one label per lock section or compare-exchange, with the
 cache-local work next to it. Any cache may take any enabled step at any time, so a run
 is an arbitrary interleaving of threads.
 */
module AllocatorSteps {
  import opened Basics
  import opened SizeClasses
  import opened Headers
  import opened CacheModel
  import opened PoolModel
  import opened AllocatorModel
  import opened PoolActions
  import Arena

  /** `id` is the cache that takes the step; `src` and `slab` resolve choices the bookkeeping makes. */
  datatype Label =
    | AllocHit(id: nat, requested: nat, src: Source)
    | AllocBatch(id: nat, requested: nat, slab: nat)
    | AllocSlab(id: nat, requested: nat, slab: nat)
    | AllocMiss(id: nat, requested: nat)
    | CarveSpan(id: nat)
    | CarveFails(id: nat)
    | RegisterSpan(id: nat)
    | Free(id: nat, block: Addr, expected: Option<nat>, src: Source)
    | DrainLocal(id: nat, cls: SizeClass, src: Source)
    | Flush(id: nat, cls: SizeClass)
    | Sweep(cls: SizeClass, slab: nat)
    | EraseUntouched(key: Key, slab: nat, block: Addr)
    | EraseCold(cls: SizeClass, slab: nat, block: Addr)
    | ReserveOther(size: nat)

  // ----- Freeing

  /** Decoding and the checks of `validate_small_block_for_free`, then the optional size check. */
  function FreeCheck(s: State, b: Addr, expected: Option<nat>): Result<SizeClass>
    requires s.arena.alignment > 0
  {
    var h := Hdr(s, b);
    match Validate(h)
    case Err(e) => Err(e)
    case Ok(Large) => Err(AlreadyFreedOrUnknownLarge)
    case Ok(Small(c)) =>
      if !Arena.ContainsBlockStart(s.arena, b) then Err(ForeignPointer)
      else if MarkedFreed(h, b) then Err(DoubleFree)
      else if expected.Some? && expected.value != h.requested then Err(SizeMismatch(expected.value, h.requested))
      else Ok(c)
  }

  /** `push_block`: the previous hot block is spilled and the freed one is hot. */
  function PushFreed(s: State, k: Key, b: Addr): State { FreeToHot(SpillHot(s, k), k, b) }

  /** `pop_batch` and `return_batch`: the inbox is drained first, then the batch returns. */
  function DrainTo(s: State, k: Key, src: Source, max: nat): State {
    ReturnHand(DrainInbox(Detach(s, k, src, max), k.cls))
  }

  function FreeLocal(s: State, k: Key, b: Addr, src: Source): State {
    var s1 := PushFreed(s, k, b);
    if Total(CacheOf(s1, k)) > Limits(s, k.cls).local then DrainTo(s1, k, src, Limits(s, k.cls).drain) else s1
  }

  function FreeRemote(s: State, k: Key, b: Addr): State {
    var s1 := FreeToStaged(s, k, b);
    if |StagedOf(s1, k)| >= Limits(s, k.cls).drain then FlushStaged(s1, k) else s1
  }

  // ----- Allocating

  /** The pop that follows a refill; every step that ends in it has a non-empty source (`AllocatorSafety.PopNewBatch`, `PopNewSlab`). */
  function PopTo(s: State, k: Key, src: Source, requested: nat): State {
    if Nonempty(CacheOf(s, k), src) then PopLive(s, k, src, requested) else s
  }

  function AllocFromBatch(s: State, k: Key, requested: nat, slab: nat): State {
    var s1 := DrainInbox(s, k.cls);
    if slab < |PoolOf(s1, k.cls)| then
      PopTo(AcceptHand(TakeBatch(s1, k.cls, slab, Limits(s, k.cls).refill), k), k, FromShared, requested)
    else s1
  }

  /** The local record a slab that starts at `start` gets in this cache. */
  function RecordFor(s: State, k: Key, start: Addr): Source { FromSlab(SlabAt(CacheOf(s, k).slabs, start)) }

  function AllocFromSlab(s: State, k: Key, requested: nat, slab: nat): State {
    var s1 := DrainInbox(s, k.cls);
    if slab < |PoolOf(s1, k.cls)| then
      PopTo(LoanSlab(s1, k, slab), k, RecordFor(s1, k, PoolOf(s1, k.cls)[slab].start), requested)
    else s1
  }

  // ----- Carving

  function PlanFor(s: State, c: SizeClass): Option<Arena.Span>
    requires s.arena.alignment > 0
  {
    Arena.PlanBlocks(s.arena, Limits(s, c).blockSize, Limits(s, c).refill, if s.next < s.arena.base then 0 else s.next - s.arena.base)
  }

  function CarvedBlocks(s: State, c: SizeClass, span: Arena.Span): seq<Addr>
    requires Limits(s, c).blockSize > 0
  {
    Arena.Carve(s.arena.base + span.start, Limits(s, c).blockSize, Quotient(span.size, Limits(s, c).blockSize))
  }

  /** A successful reservation: the cursor moves, and the cache holds the span until it registers it. */
  function TakeSpan(s: State, id: nat, c: SizeClass, requested: nat, blocks: seq<Addr>, end: Addr): State {
    s.(next := end, carved := s.carved + (map b | b in blocks :: c), phases := s.phases[id := Carved(c, requested, blocks)])
  }

  function ReserveFor(s: State, id: nat, c: SizeClass, requested: nat): State
    requires s.arena.alignment > 0 && Limits(s, c).blockSize > 0
  {
    match PlanFor(s, c)
    case None => s
    case Some(span) =>
      TakeSpan(s, id, c, requested, CarvedBlocks(s, c, span), s.arena.base + span.start + span.size)
  }

  // ----- The transition relation

  function RequestClass(requested: nat): SizeClass {
    match FromRequest(requested)
    case Some(c) => c
    case None => B64
  }

  ghost predicate Ready(s: State, id: nat, requested: nat) {
    PhaseOf(s, id) == Idle && FromRequest(requested).Some?
  }

  ghost predicate Enabled(s: State, l: Label)
    requires s.arena.alignment > 0
  {
    match l
    case AllocHit(id, requested, src) =>
      Ready(s, id, requested) && PopSource(CacheOf(s, Key(id, RequestClass(requested))), src)
    case AllocBatch(id, requested, slab) =>
      var c := RequestClass(requested);
      && Ready(s, id, requested) && Total(CacheOf(s, Key(id, c))) == 0
      && RefillChoice(PoolOf(DrainInbox(s, c), c), Batch(slab))
    case AllocSlab(id, requested, slab) =>
      var c := RequestClass(requested);
      && Ready(s, id, requested) && Total(CacheOf(s, Key(id, c))) == 0
      && RefillChoice(PoolOf(DrainInbox(s, c), c), Whole(slab))
    case AllocMiss(id, requested) =>
      var c := RequestClass(requested);
      && Ready(s, id, requested) && Total(CacheOf(s, Key(id, c))) == 0
      && RefillChoice(PoolOf(DrainInbox(s, c), c), Empty)
    case CarveSpan(id) => PhaseOf(s, id).Carving? && PlanFor(s, PhaseOf(s, id).cls).Some?
    case CarveFails(id) => PhaseOf(s, id).Carving? && PlanFor(s, PhaseOf(s, id).cls).None?
    case RegisterSpan(id) => PhaseOf(s, id).Carved?
    case Free(id, b, expected, src) =>
      && PhaseOf(s, id) == Idle && b in s.carved
      && (var check := FreeCheck(s, b, expected);
          check.Ok? && Hdr(s, b).owner == id ==>
            var k := Key(id, check.value);
            Total(CacheOf(PushFreed(s, k, b), k)) > Limits(s, k.cls).local ==>
              DrainSource(CacheOf(PushFreed(s, k, b), k), src))
    case DrainLocal(id, c, src) => PhaseOf(s, id) == Idle && DrainSource(CacheOf(s, Key(id, c)), src)
    case Flush(id, c) => PhaseOf(s, id) == Idle
    case Sweep(c, i) => i < |PoolOf(s, c)| && PoolOf(s, c)[i].state == FullHot
    case EraseUntouched(k, i, b) => i < |CacheOf(s, k).slabs| && b in CacheOf(s, k).slabs[i].untouched
    case EraseCold(c, i, b) => i < |PoolOf(s, c)| && PoolOf(s, c)[i].state == FullCold && b in PoolOf(s, c)[i].blocks
    case ReserveOther(size) => s.arena.base <= s.next && Arena.PlanBytes(s.arena, size, s.next - s.arena.base).Some?
  }

  function Apply(s: State, l: Label): State
    requires s.arena.alignment > 0 && forall c :: Limits(s, c).blockSize > 0
  {
    match l
    case AllocHit(id, requested, src) => PopTo(s, Key(id, RequestClass(requested)), src, requested)
    case AllocBatch(id, requested, slab) => AllocFromBatch(s, Key(id, RequestClass(requested)), requested, slab)
    case AllocSlab(id, requested, slab) => AllocFromSlab(s, Key(id, RequestClass(requested)), requested, slab)
    case AllocMiss(id, requested) =>
      var s1 := DrainInbox(s, RequestClass(requested));
      s1.(phases := s1.phases[id := Carving(RequestClass(requested), requested)])
    case CarveSpan(id) =>
      var ph := PhaseOf(s, id);
      if ph.Carving? then ReserveFor(s, id, ph.cls, ph.requested) else s
    case CarveFails(id) => s.(phases := s.phases[id := Idle])
    case RegisterSpan(id) =>
      var ph := PhaseOf(s, id);
      if ph.Carved? && ph.blocks != [] then
        var k := Key(id, ph.cls);
        PopTo(RegisterCarved(s, k, ph.blocks), k, RecordFor(s, k, ph.blocks[0]), ph.requested)
      else s
    case Free(id, b, expected, src) =>
      (match FreeCheck(s, b, expected)
       case Err(_) => s
       case Ok(c) =>
         if Hdr(s, b).owner == id then FreeLocal(s, Key(id, c), b, src) else FreeRemote(s, Key(id, c), b))
    case DrainLocal(id, c, src) => DrainTo(s, Key(id, c), src, Total(CacheOf(s, Key(id, c))))
    case Flush(id, c) => FlushStaged(s, Key(id, c))
    case Sweep(c, i) => if i < |PoolOf(s, c)| then SweepSlab(s, c, i) else s
    case EraseUntouched(_, _, b) => EraseBlock(s, b)
    case EraseCold(_, _, b) => EraseBlock(s, b)
    case ReserveOther(size) =>
      (match Arena.PlanBytes(s.arena, size, if s.next < s.arena.base then 0 else s.next - s.arena.base)
       case None => s
       case Some(span) => s.(next := s.arena.base + span.start + span.size))
  }

  // ----- Invariant between steps

  /** What a cache may hold of one class between operations, and while it waits to carve. */
  ghost predicate Bounded(s: State) {
    && (forall k :: Total(CacheOf(s, k)) <= Limits(s, k.cls).local || Total(CacheOf(s, k)) < Limits(s, k.cls).refill)
    && (forall k :: |StagedOf(s, k)| < Limits(s, k.cls).drain)
  }

  ghost predicate PhasesOk(s: State) {
    forall id :: PhaseOf(s, id) != Idle ==>
      && 1 <= PhaseOf(s, id).requested <= Payload(PhaseOf(s, id).cls)
      && Total(CacheOf(s, Key(id, PhaseOf(s, id).cls))) == 0
  }

  ghost predicate StepInv(s: State, loc: Locs) {
    Inv(s, loc) && s.hand == [] && Bounded(s) && PhasesOk(s)
  }

  ghost predicate Init(s: State) {
    && LimitsOk(s)
    && s.hdr == map[] && s.link == map[] && s.caches == map[] && s.staged == map[] && s.pools == map[]
    && s.inboxes == map[] && s.live == map[] && s.phases == map[] && s.carved == map[]
    && s.next == s.arena.base && s.hand == []
  }

  /** A run: every state follows from the one before it by the label between them. */
  ghost predicate Run(states: seq<State>, labels: seq<Label>) { Stretch(states, labels) && Init(states[0]) }

  ghost predicate StepAt(states: seq<State>, labels: seq<Label>, i: nat)
    requires i < |labels| && |states| == |labels| + 1
  {
    Step(states[i], labels[i], states[i + 1])
  }

  /** A stretch of a run. */
  ghost predicate Stretch(states: seq<State>, labels: seq<Label>) {
    |states| == |labels| + 1 && forall i :: 0 <= i < |labels| ==> StepAt(states, labels, i)
  }

  ghost predicate Step(s: State, l: Label, s': State) {
    && s.arena.alignment > 0 && (forall c :: Limits(s, c).blockSize > 0)
    && Enabled(s, l) && s' == Apply(s, l)
  }

  ghost predicate Reachable(s: State) {
    exists states, labels :: Run(states, labels) && states[|labels|] == s
  }
}
