/** A class of a thread cache as a bag of blocks: what every operation adds to it or takes from it. */
module CacheBags {
  import opened Basics
  import opened Chains
  import opened CacheModel

  function SlabBag(slab: LocalSlab): multiset<Addr> { multiset(slab.untouched) + multiset(slab.free) }

  function SlabsBag(slabs: seq<LocalSlab>): multiset<Addr> {
    if slabs == [] then multiset{} else SlabsBag(slabs[..|slabs| - 1]) + SlabBag(slabs[|slabs| - 1])
  }

  /** Every block the class can hand out, with multiplicity. */
  function Bag(c: ClassCache): multiset<Addr> { multiset(HotSeq(c)) + SlabsBag(c.slabs) + multiset(c.shared) }

  lemma {:induction false} SlabsBagSize(slabs: seq<LocalSlab>)
    ensures |SlabsBag(slabs)| == SlabsLen(slabs)
  {
    if slabs != [] {
      SlabsBagSize(slabs[..|slabs| - 1]);
    }
  }

  lemma Exchange(x: multiset<Addr>, lost: multiset<Addr>, y: multiset<Addr>, gained: multiset<Addr>, same: multiset<Addr>)
    requires x + lost == y + gained
    ensures (x + same) + lost == (y + same) + gained
    ensures (same + x) + lost == (same + y) + gained
  {
    assert (x + same) + lost == (x + lost) + same;
    assert (same + x) + lost == same + (x + lost);
  }

  /** Only the slabs changed. */
  lemma SlabsOnly(c: ClassCache, slabs: seq<LocalSlab>, lost: multiset<Addr>, gained: multiset<Addr>)
    requires SlabsBag(slabs) + lost == SlabsBag(c.slabs) + gained
    ensures Bag(c.(slabs := slabs)) + lost == Bag(c) + gained
  {
    hide SlabsBag;
    Exchange(SlabsBag(slabs), lost, SlabsBag(c.slabs), gained, multiset(HotSeq(c)));
    Exchange(multiset(HotSeq(c)) + SlabsBag(slabs), lost, multiset(HotSeq(c)) + SlabsBag(c.slabs), gained, multiset(c.shared));
  }

  /** One slab changed. */
  lemma OneSlabOnly(c: ClassCache, i: nat, slab: LocalSlab, lost: multiset<Addr>, gained: multiset<Addr>)
    requires i < |c.slabs| && SlabBag(slab) + lost == SlabBag(c.slabs[i]) + gained
    ensures Bag(c.(slabs := c.slabs[i := slab])) + lost == Bag(c) + gained
  {
    hide SlabsBag, SlabBag, Bag;
    SlabsBagUpdate(c.slabs, i, slab);
    var x, y, new', old' := SlabsBag(c.slabs[i := slab]), SlabsBag(c.slabs), SlabBag(slab), SlabBag(c.slabs[i]);
    assert x + lost + old' == (x + old') + lost;
    assert (y + new') + lost == y + (new' + lost);
    assert y + (old' + gained) == y + gained + old';
    assert x + lost + old' == y + gained + old';
    assert x + lost == y + gained by {
      assert x + lost == (x + lost + old') - old';
      assert y + gained == (y + gained + old') - old';
    }
    SlabsOnly(c, c.slabs[i := slab], lost, gained);
  }

  lemma {:induction false} SlabsBagUpdate(slabs: seq<LocalSlab>, i: nat, slab: LocalSlab)
    requires i < |slabs|
    ensures SlabsBag(slabs[i := slab]) + SlabBag(slabs[i]) == SlabsBag(slabs) + SlabBag(slab)
  {
    var last := |slabs| - 1;
    if i == last {
      assert slabs[i := slab][..last] == slabs[..last];
    } else {
      var rest, rest' := slabs[..last], slabs[..last][i := slab];
      SlabsBagUpdate(rest, i, slab);
      assert slabs[i := slab][..last] == rest';
      Exchange(SlabsBag(rest'), SlabBag(slabs[i]), SlabsBag(rest), SlabBag(slab), SlabBag(slabs[last]));
    }
  }

  lemma SlabsBagAppend(slabs: seq<LocalSlab>, slab: LocalSlab)
    ensures SlabsBag(slabs + [slab]) == SlabsBag(slabs) + SlabBag(slab)
  {
    assert (slabs + [slab])[..|slabs|] == slabs;
  }

  /** `total_len` counts the bag. */
  lemma BagSize(c: ClassCache)
    ensures |Bag(c)| == Total(c)
  {
    SlabsBagSize(c.slabs);
  }

  lemma SpillAdds(c: ClassCache, b: Addr)
    ensures Bag(Spill(c, b)) == Bag(c) + multiset{b}
  {
    hide SlabsBag, HomeOf;
    var i := HomeOf(c.slabs, b);
    if i < |c.slabs| {
      var slab := c.slabs[i].(free := [b] + c.slabs[i].free);
      assert multiset([b] + c.slabs[i].free) == multiset(c.slabs[i].free) + multiset{b};
      OneSlabOnly(c, i, slab, multiset{}, multiset{b});
    } else {
      assert multiset([b] + c.shared) == multiset(c.shared) + multiset{b};
    }
  }

  lemma SpillLeavesHot(c: ClassCache, b: Addr)
    ensures Spill(c, b).hot == c.hot
  {
  }

  /** A free adds exactly its block, wherever the previous hot block went. */
  lemma PushAdds(c: ClassCache, b: Addr)
    ensures Bag(Push(c, b)) == Bag(c) + multiset{b}
  {
    hide SlabsBag, Spill;
    if c.hot.Some? {
      SpillAdds(c.(hot := None), c.hot.value);
      SpillLeavesHot(c.(hot := None), c.hot.value);
      assert Bag(c) == Bag(c.(hot := None)) + multiset{c.hot.value};
    }
  }

  /** A pop takes exactly the block it returns, whatever its source. */
  lemma PopTakes(c: ClassCache, src: Source)
    requires Nonempty(c, src)
    ensures Bag(PopRest(c, src)) + multiset{PopBlock(c, src)} == Bag(c)
  {
    hide SlabsBag, SlabBag, PopSlab;
    match src
    case FromHot =>
    case FromShared => MultisetPop(c.shared);
    case FromSlab(i) =>
      PopSlabTakes(c.slabs[i]);
      OneSlabOnly(c, i, PopSlab(c.slabs[i]), multiset{PopBlock(c, src)}, multiset{});
  }

  lemma PopSlabTakes(slab: LocalSlab)
    requires slab.untouched != [] || slab.free != []
    ensures SlabBag(PopSlab(slab)) + multiset{if slab.free != [] then slab.free[0] else slab.untouched[0]} == SlabBag(slab)
  {
    if slab.free != [] {
      MultisetPop(slab.free);
    } else {
      MultisetPop(slab.untouched);
    }
  }

  lemma AcceptAdds(c: ClassCache, batch: seq<Addr>)
    ensures Bag(AcceptBatch(c, batch)) == Bag(c) + multiset(batch)
  {
    assert multiset(batch + c.shared) == multiset(batch) + multiset(c.shared);
  }

  /** A slab that is issued again adds its blocks, but only a record that was empty loses none. */
  lemma OwnSlabAdds(c: ClassCache, start: Addr, blocks: seq<Addr>)
    ensures var i := SlabAt(c.slabs, start);
            var lost := if i < |c.slabs| then SlabBag(c.slabs[i]) else multiset{};
            Bag(OwnSlab(c, start, blocks)) + lost == Bag(c) + multiset(blocks)
  {
    hide SlabsBag, SlabAt;
    var i, slab := SlabAt(c.slabs, start), FreshSlab(start, blocks);
    assert SlabBag(slab) == multiset(blocks);
    if i < |c.slabs| {
      OneSlabOnly(c, i, slab, SlabBag(c.slabs[i]), multiset(blocks));
    } else {
      SlabsBagAppend(c.slabs, slab);
      SlabsOnly(c, c.slabs + [slab], multiset{}, multiset(blocks));
    }
  }

  lemma {:induction false} DrainSlabTakes(slab: LocalSlab, max: nat, out: seq<Addr>)
    ensures var (rest, batch) := DrainSlab(slab, max, out);
            SlabBag(rest) + multiset(batch) == SlabBag(slab) + multiset(out)
    decreases max
  {
    if max == 0 {
    } else if slab.free != [] {
      MultisetPop(slab.free);
      DrainSlabTakes(slab.(free := slab.free[1..]), max - 1, [slab.free[0]] + out);
    } else if slab.untouched != [] {
      MultisetPop(slab.untouched);
      DrainSlabTakes(slab.(untouched := slab.untouched[1..]), max - 1, [slab.untouched[0]] + out);
    }
  }

  /** A drained batch is taken out of the cache, block for block. */
  lemma DrainTakes(c: ClassCache, src: Source, max: nat)
    requires Nonempty(c, src)
    ensures Bag(DrainRest(c, src, max)) + multiset(DrainBatch(c, src, max)) == Bag(c)
  {
    hide SlabsBag, DrainSlab;
    match src
    case FromHot =>
    case FromShared => MultisetSplit(c.shared, Min(max, |c.shared|));
    case FromSlab(i) =>
      DrainSlabTakes(c.slabs[i], max, []);
      var (rest, batch) := DrainSlab(c.slabs[i], max, []);
      OneSlabOnly(c, i, rest, multiset(batch), multiset{});
  }

  /** Draining a slab takes as much as asked, reclaimed blocks before untouched ones. */
  lemma {:induction false} DrainSlabOrder(slab: LocalSlab, max: nat, out: seq<Addr>)
    ensures var (rest, _) := DrainSlab(slab, max, out);
            && rest.free == slab.free[Min(max, |slab.free|)..]
            && rest.untouched == slab.untouched[Min(max - Min(max, |slab.free|), |slab.untouched|)..]
    decreases max
  {
    if max == 0 {
    } else if slab.free != [] {
      DrainSlabOrder(slab.(free := slab.free[1..]), max - 1, [slab.free[0]] + out);
    } else if slab.untouched != [] {
      DrainSlabOrder(slab.(untouched := slab.untouched[1..]), max - 1, [slab.untouched[0]] + out);
    }
  }
}
