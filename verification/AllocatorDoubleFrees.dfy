/** Which steps write the header of a block that is not live, and so how long a double free is reported as one. */
module AllocatorDoubleFrees {
  import opened Basics
  import opened Headers
  import opened CacheModel
  import opened PoolModel
  import opened AllocatorModel
  import opened DrainActions
  import opened AllocatorSteps
  import opened AllocatorInvariant
  import opened AllocatorSafety
  import opened AllocatorRuns
  import opened AllocatorEffects
  import opened AllocatorFrames
  import Arena

  /**
   What writes the header of a block that is not live: it is issued again, a drain initializes
   it together with the other fresh blocks it takes, or the system erases its page.
   */
  ghost predicate Rewrites(s: State, l: Label, s': State, b: Addr) {
    || (b !in s.live && b in s'.live)
    || ((l.DrainLocal? || l.Free?) && exists k, i :: b in Contents(s, Untouched(k, i)) && b !in Contents(s', Untouched(k, i)))
    || ((l.EraseUntouched? || l.EraseCold?) && l.block == b)
  }

  // ----- Drains

  /** Only blocks of the slab that are no longer untouched got a new header. */
  lemma {:induction false} DetachSlabHeaders(s: State, k: Key, i: nat, max: nat, b: Addr)
    requires i < |CacheOf(s, k).slabs| && NoDup(CacheOf(s, k).slabs[i].untouched)
    ensures var rest := DrainSlab(CacheOf(s, k).slabs[i], max, s.hand).0;
            Hdr(DetachSlab(s, k, i, max), b) != Hdr(s, b) ==>
              b in CacheOf(s, k).slabs[i].untouched && b !in rest.untouched
    decreases max
  {
    hide Hdr;
    var slab := CacheOf(s, k).slabs[i];
    if max == 0 {
    } else if slab.free != [] {
      DetachReclaimedFrame(s, k, i);
      SameHeader(s, DetachReclaimed(s, k, i), b);
      DetachSlabHeaders(DetachReclaimed(s, k, i), k, i, max - 1, b);
    } else if slab.untouched != [] {
      DetachUntouchedFrame(s, k, i);
      OtherHeaders(s, k, i, b);
      NoDupTail(slab.untouched);
      DetachSlabHeaders(DetachUntouched(s, k, i), k, i, max - 1, b);
      RestUntouched(slab.(untouched := slab.untouched[1..]), max - 1, [slab.untouched[0]] + s.hand);
    }
  }

  lemma NoDupTail(l: seq<Addr>)
    requires NoDup(l) && l != []
    ensures NoDup(l[1..]) && l[0] !in l[1..]
    ensures forall b :: b in l[1..] ==> b in l
  {
  }

  lemma SameHeader(s: State, s': State, b: Addr)
    requires s'.hdr == s.hdr
    ensures Hdr(s', b) == Hdr(s, b)
  {
  }

  lemma OtherHeaders(s: State, k: Key, i: nat, b: Addr)
    requires i < |CacheOf(s, k).slabs| && CacheOf(s, k).slabs[i].untouched != []
    ensures b != CacheOf(s, k).slabs[i].untouched[0] ==> Hdr(DetachUntouched(s, k, i), b) == Hdr(s, b)
  {
  }

  lemma {:induction false} RestUntouched(slab: LocalSlab, max: nat, out: seq<Addr>)
    ensures forall b :: b in DrainSlab(slab, max, out).0.untouched ==> b in slab.untouched
    decreases max
  {
    if max == 0 {
    } else if slab.free != [] {
      RestUntouched(slab.(free := slab.free[1..]), max - 1, [slab.free[0]] + out);
    } else if slab.untouched != [] {
      RestUntouched(slab.(untouched := slab.untouched[1..]), max - 1, [slab.untouched[0]] + out);
    }
  }

  /** A drain only writes headers of fresh blocks it takes. */
  lemma DrainHeaders(s: State, loc: Locs, k: Key, src: Source, max: nat, b: Addr)
    requires Inv(s, loc) && s.hand == [] && max > 0 && DrainSource(CacheOf(s, k), src)
    ensures var s' := DrainTo(s, k, src, max);
            Hdr(s', b) != Hdr(s, b) ==>
              src.FromSlab? && b in Contents(s, Untouched(k, src.slab)) && b !in Contents(s', Untouched(k, src.slab))
  {
    hide Placed, Shaped, Threaded, BlocksOk, PendingOk, OneOwner, CarvedOk, RegisteredOk, LimitsOk, DrainInbox, ReturnHand, DetachSlab, DrainSlab, Hdr, DrainSource, CacheOf;
    DrainSourceNonempty(CacheOf(s, k), src);
    var s1 := Detach(s, k, src, max);
    DrainInboxFrame(s1, k.cls);
    ReturnHandFrame(DrainInbox(s1, k.cls));
    SameHeader(s1, DrainTo(s, k, src, max), b);
    DrainToCaches(s, k, src, max);
    if src.FromSlab? {
      UntouchedOnce(s, loc, k, src.slab);
      DetachSlabHeaders(s, k, src.slab, max, b);
    } else {
      SameHeader(s, s1, b);
    }
  }

  lemma UntouchedOnce(s: State, loc: Locs, k: Key, i: nat)
    requires Placed(s, loc) && i < |CacheOf(s, k).slabs|
    ensures NoDup(CacheOf(s, k).slabs[i].untouched)
  {
    PlacedAt(s, loc, Untouched(k, i));
    ContentsOnce(s, loc, Untouched(k, i));
  }

  // ----- Every step

  /** A pop writes the header of the block it issues. */
  lemma PopHeaders(s: State, k: Key, src: Source, requested: nat, b: Addr)
    ensures var s' := PopTo(s, k, src, requested);
            Hdr(s', b) != Hdr(s, b) ==> b in s'.live
  {
  }

  lemma AllocHeaders(s: State, l: Label, s': State, b: Addr)
    requires Step(s, l, s') && (l.AllocHit? || l.AllocBatch? || l.AllocSlab? || l.AllocMiss? || l.RegisterSpan?)
    ensures Hdr(s', b) != Hdr(s, b) ==> b in s'.live
  {
    hide PopTo, DrainInbox, TakeBatch, AcceptHand, LoanSlab, RegisterCarved, RecordFor, Hdr, RefillChoice, PopSource;
    if l.RegisterSpan? {
      var ph := PhaseOf(s, l.id);
      if ph.blocks != [] {
        var k := Key(l.id, ph.cls);
        var s1 := RegisterCarved(s, k, ph.blocks);
        RegisterFrame(s, k, ph.blocks);
        SameHeader(s, s1, b);
        PopHeaders(s1, k, RecordFor(s, k, ph.blocks[0]), ph.requested, b);
      }
    } else {
      RefillHeaders(s, l, s', b);
    }
  }

  lemma RefillHeaders(s: State, l: Label, s': State, b: Addr)
    requires Step(s, l, s') && (l.AllocHit? || l.AllocBatch? || l.AllocSlab? || l.AllocMiss?)
    ensures Hdr(s', b) != Hdr(s, b) ==> b in s'.live
  {
    hide PopTo, DrainInbox, TakeBatch, AcceptHand, LoanSlab, RecordFor, Hdr, RefillChoice, PopSource, CacheOf, PoolOf, RequestClass;
    var k := Key(l.id, RequestClass(l.requested));
    var s1 := DrainInbox(s, k.cls);
    DrainInboxFrame(s, k.cls);
    SameHeader(s, s1, b);
    if l.AllocHit? {
      PopHeaders(s, k, l.src, l.requested, b);
    } else if l.AllocMiss? {
      SameHeader(s1, s', b);
    } else if l.slab < |PoolOf(s1, k.cls)| {
      if l.AllocBatch? {
        var s3 := AcceptHand(TakeBatch(s1, k.cls, l.slab, Limits(s, k.cls).refill), k);
        BatchHeaders(s1, k, l.slab, Limits(s, k.cls).refill);
        SameHeader(s1, s3, b);
        PopHeaders(s3, k, FromShared, l.requested, b);
      } else {
        var s2 := LoanSlab(s1, k, l.slab);
        LoanHeaders(s1, k, l.slab);
        SameHeader(s1, s2, b);
        PopHeaders(s2, k, RecordFor(s1, k, PoolOf(s1, k.cls)[l.slab].start), l.requested, b);
      }
    }
  }

  lemma BatchHeaders(s: State, k: Key, slab: nat, max: nat)
    requires slab < |PoolOf(s, k.cls)|
    ensures AcceptHand(TakeBatch(s, k.cls, slab, max), k).hdr == s.hdr
  {
    hide TakePartial, PartialBatch, CacheOf, PoolOf;
    var s1 := TakeBatch(s, k.cls, slab, max);
    assert s1.hdr == s.hdr;
    hide TakeBatch;
  }

  lemma LoanHeaders(s: State, k: Key, slab: nat)
    requires slab < |PoolOf(s, k.cls)|
    ensures LoanSlab(s, k, slab).hdr == s.hdr
  {
  }

  lemma PushedHeaders(s: State, k: Key, b: Addr, x: Addr)
    ensures x != b ==> Hdr(PushFreed(s, k, b), x) == Hdr(s, x)
    ensures forall i :: Contents(PushFreed(s, k, b), Untouched(k, i)) == Contents(s, Untouched(k, i))
  {
    PushFreedFrame(s, k, b);
  }

  lemma FreeHeaders(s: State, loc: Locs, l: Label, s': State, b: Addr)
    requires StepInv(s, loc) && Step(s, l, s') && l.Free? && b !in s.live
    ensures Hdr(s', b) != Hdr(s, b) ==> Rewrites(s, l, s', b)
  {
    hide Placed, Shaped, Threaded, BlocksOk, PendingOk, OneOwner, CarvedOk, RegisteredOk, Bounded, PhasesOk;
    hide FreeCheck, PushFreed, DrainTo, DrainSource, Total, Hdr, Contents;
    FreeCheckExact(s, loc, l.block, l.expected);
    var check := FreeCheck(s, l.block, l.expected);
    if check.Ok? {
      var k := Key(l.id, check.value);
      if Hdr(s, l.block).owner == l.id {
        assert Limits(s, k.cls).Valid();
        var s1 := PushFreed(s, k, l.block);
        PushFreedFrame(s, k, l.block);
        PushedHeaders(s, k, l.block, b);
        if Total(CacheOf(s1, k)) > Limits(s, k.cls).local {
          var loc1 := PushFreedInv(s, loc, k, l.block);
          DrainHeaders(s1, loc1, k, l.src, Limits(s, k.cls).drain, b);
        }
      } else {
        StagedHeaders(s, k, l.block, b);
      }
    }
  }

  lemma StagedHeaders(s: State, k: Key, b: Addr, x: Addr)
    ensures x != b ==> Hdr(FreeRemote(s, k, b), x) == Hdr(s, x)
  {
  }

  /** Between issue and issue only drains of fresh blocks and page reclaim write a header. */
  lemma HeadersStay(s: State, loc: Locs, l: Label, s': State, b: Addr)
    requires StepInv(s, loc) && Step(s, l, s') && b !in s.live && !Rewrites(s, l, s', b)
    ensures Hdr(s', b) == Hdr(s, b)
  {
    hide Placed, Shaped, Threaded, BlocksOk, PendingOk, OneOwner, CarvedOk, RegisteredOk, Bounded, PhasesOk, Hdr, Contents;
    if l.AllocHit? || l.AllocBatch? || l.AllocSlab? || l.AllocMiss? || l.RegisterSpan? {
      hide Apply, Enabled;
      AllocHeaders(s, l, s', b);
    } else if l.Free? {
      hide Apply, Enabled;
      FreeHeaders(s, loc, l, s', b);
    } else if l.DrainLocal? {
      hide DrainTo, DrainSource;
      var k := Key(l.id, l.cls);
      DrainSourceExists(CacheOf(s, k));
      DrainHeaders(s, loc, k, l.src, Total(CacheOf(s, k)), b);
    } else {
      QuietHeaders(s, l, s', b);
    }
  }

  lemma QuietHeaders(s: State, l: Label, s': State, b: Addr)
    requires Step(s, l, s')
    requires l.CarveSpan? || l.CarveFails? || l.Flush? || l.Sweep? || l.EraseUntouched? || l.EraseCold? || l.ReserveOther?
    ensures (l.EraseUntouched? || l.EraseCold? ==> l.block != b) ==> Hdr(s', b) == Hdr(s, b)
  {
    hide PlanFor, CarvedBlocks, Arena.PlanBytes;
  }

  // ----- Freeing twice

  /** The block was issued and freed: its header still decodes, and it is not live. */
  ghost predicate Retired(s: State, b: Addr) { b !in s.live && Validate(Hdr(s, b)).Ok? }

  lemma StaysRetired(states: seq<State>, labels: seq<Label>, n: nat, b: Addr)
    requires Run(states, labels) && n < |labels| && Retired(states[n], b) && !Rewrites(states[n], labels[n], states[n + 1], b)
    ensures Retired(states[n + 1], b)
  {
    hide Apply, Enabled, StepInv, Validate;
    var loc := RunInv(states, labels, n);
    assert StepAt(states, labels, n);
    HeadersStay(states[n], loc, labels[n], states[n + 1], b);
  }

  lemma {:induction false} RetiredDuring(states: seq<State>, labels: seq<Label>, n: nat, m: nat, b: Addr)
    requires Run(states, labels) && n <= m < |states| && Retired(states[n], b)
    requires forall j :: n <= j < m ==> !Rewrites(states[j], labels[j], states[j + 1], b)
    ensures Retired(states[m], b)
    decreases m - n
  {
    hide Run, Retired, Rewrites;
    if n < m {
      RetiredDuring(states, labels, n, m - 1, b);
      RunLength(states, labels);
      StaysRetired(states, labels, m - 1, b);
    }
  }

  lemma RunLength(states: seq<State>, labels: seq<Label>)
    requires Run(states, labels)
    ensures |states| == |labels| + 1
  {
  }

  /** An accepted free leaves a header that decodes, with the freed marker. */
  lemma AcceptedRetires(states: seq<State>, labels: seq<Label>, n: nat)
    requires Run(states, labels) && n < |labels| && labels[n].Free? && states[n].arena.alignment > 0
    requires FreeCheck(states[n], labels[n].block, labels[n].expected).Ok?
    ensures Retired(states[n + 1], labels[n].block) && labels[n].block in states[n + 1].carved
  {
    hide StepInv, Apply, Enabled, FreeCheck, Validate;
    var loc := RunInv(states, labels, n);
    assert StepAt(states, labels, n);
    FreeRetires(states[n], loc, labels[n]);
  }

  lemma FreeRetires(s: State, loc: Locs, l: Label)
    requires StepInv(s, loc) && Step(s, l, Apply(s, l)) && l.Free? && FreeCheck(s, l.block, l.expected).Ok?
    ensures Retired(Apply(s, l), l.block) && l.block in Apply(s, l).carved
  {
    hide Placed, Shaped, Threaded, BlocksOk, PendingOk, OneOwner, CarvedOk, RegisteredOk, Bounded, PhasesOk;
    hide FreeCheck, PushFreed, DrainTo, DrainSource, Total, Hdr, Contents, Validate;
    FreeCheckExact(s, loc, l.block, l.expected);
    var b := l.block;
    FreeFrame(s, l);
    LiveDecodes(s, loc, b);
    var k := Key(l.id, FreeCheck(s, b, l.expected).value);
    if Hdr(s, b).owner == l.id {
      assert Limits(s, k.cls).Valid();
      var s1 := PushFreed(s, k, b);
      PushFreedFrame(s, k, b);
      MarkedHeader(s, k, b);
      MarkKeepsFields(Hdr(s, b));
      if Total(CacheOf(s1, k)) > Limits(s, k.cls).local {
        var loc1 := PushFreedInv(s, loc, k, b);
        if l.src.FromSlab? {
          HotIsNotUntouched(s1, loc1, k, b, Untouched(k, l.src.slab));
        }
        DrainHeaders(s1, loc1, k, l.src, Limits(s, k.cls).drain, b);
      }
    } else {
      StagedHeader(s, k, b);
      MarkKeepsFields(Hdr(s, b));
    }
  }

  lemma LiveDecodes(s: State, loc: Locs, b: Addr)
    requires Inv(s, loc) && b in s.live
    ensures Validate(Hdr(s, b)).Ok?
  {
    BlockStanding(s, loc, b);
    SmallRoundTrip(s.live[b].cls, s.live[b].requested, s.live[b].owner);
  }

  lemma MarkKeepsFields(h: Header)
    ensures Validate(MarkFreed(h)) == Validate(h)
  {
  }

  lemma MarkedHeader(s: State, k: Key, b: Addr)
    ensures Hdr(PushFreed(s, k, b), b) == MarkFreed(Hdr(s, b)) && b !in PushFreed(s, k, b).live
  {
  }

  lemma StagedHeader(s: State, k: Key, b: Addr)
    ensures Hdr(FreeRemote(s, k, b), b) == MarkFreed(Hdr(s, b)) && b !in FreeRemote(s, k, b).live
  {
  }

  lemma HotIsNotUntouched(s: State, loc: Locs, k: Key, b: Addr, p: Place)
    requires Placed(s, loc) && CacheOf(s, k).hot == Some(b) && p.Untouched?
    ensures b !in Contents(s, p)
  {
    PlacedAt(s, loc, Hot(k));
    assert b in At(s, Hot(k));
    PlacedAt(s, loc, p);
    assert b !in At(s, p);
  }

  lemma {:induction false} CarvedDuring(states: seq<State>, labels: seq<Label>, n: nat, m: nat, b: Addr)
    requires Run(states, labels) && n <= m < |states| && b in states[n].carved
    ensures b in states[m].carved
    decreases m - n
  {
    if n < m {
      CarvedDuring(states, labels, n, m - 1, b);
      StaysCarved(states, labels, m - 1, b);
    }
  }

  lemma StaysCarved(states: seq<State>, labels: seq<Label>, n: nat, b: Addr)
    requires Run(states, labels) && n < |labels| && b in states[n].carved
    ensures b in states[n + 1].carved
  {
    hide Apply, Enabled, StepInv;
    var loc := RunInv(states, labels, n);
    assert StepAt(states, labels, n);
    StepFrame(states[n], loc, labels[n]);
  }

  /**
   After an accepted free, every further free of the block is reported as a double free, through
   any cache and with any size, whatever happens in between, until its header is written again:
   by issuing it, by a drain that takes it untouched from a lent slab, or by erasing its page.
   */
  lemma DoubleFreeIsReported(states: seq<State>, labels: seq<Label>, n: nat, m: nat, expected: Option<nat>)
    requires Run(states, labels) && n < |labels| && n < m < |states|
    requires labels[n].Free? && states[n].arena.alignment > 0
    requires FreeCheck(states[n], labels[n].block, labels[n].expected).Ok?
    requires forall j :: n < j < m ==> !Rewrites(states[j], labels[j], states[j + 1], labels[n].block)
    ensures states[m].arena.alignment > 0 && FreeCheck(states[m], labels[n].block, expected) == Err(DoubleFree)
  {
    hide Run, FreeCheck, Rewrites, Validate, Hdr, Inv, Bounded, PhasesOk;
    var b := labels[n].block;
    AcceptedRetires(states, labels, n);
    RetiredDuring(states, labels, n + 1, m, b);
    CarvedDuring(states, labels, n + 1, m, b);
    var loc := RunInv(states, labels, m);
    RetiredAnswer(states[m], loc, b, expected);
  }

  lemma RetiredAnswer(s: State, loc: Locs, b: Addr, expected: Option<nat>)
    requires Inv(s, loc) && b in s.carved && Retired(s, b)
    ensures s.arena.alignment > 0 && FreeCheck(s, b, expected) == Err(DoubleFree)
  {
    hide FreeCheck, Validate, Hdr;
    FreeCheckExact(s, loc, b, expected);
  }
}
