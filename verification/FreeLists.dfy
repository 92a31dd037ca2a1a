/** Intrusive LIFO lists and detached batches in shared header memory (src/free_list.rs). */
module FreeLists {
  import opened Basics
  import opened Chains

  /** The link words of all block headers, shared by every list. */
  class HeaderMemory {
    var link: map<Addr, Addr>

    constructor ()
      ensures link == map[]
    {
      link := map[];
    }
  }

  /** Chains that avoid the block `b` read the same before and after. */
  ghost predicate OthersUnchanged(link: map<Addr, Addr>, link': map<Addr, Addr>, b: Addr) {
    forall l :: Linked(link, l) && b !in l ==> Linked(link', l)
  }

  lemma WriteKeepsOthers(link: map<Addr, Addr>, b: Addr, next: Addr)
    ensures OthersUnchanged(link, link[b := next], b)
  {
    forall l | Linked(link, l) && b !in l ensures Linked(link[b := next], l) {
      LinkedFrame(link, link[b := next], l);
    }
  }

  /** What every list and batch means: its blocks in order, each once, null-terminated. */
  ghost predicate Chain(link: map<Addr, Addr>, head: Addr, len: nat, nodes: seq<Addr>) {
    Linked(link, nodes) && NoDup(nodes) && 0 !in nodes && head == Head(nodes) && len == |nodes|
  }

  /** A chain is determined by its head and length, so `nodes` adds nothing to the stored words. */
  lemma {:induction false} ChainIsUnique(link: map<Addr, Addr>, head: Addr, len: nat, l: seq<Addr>, r: seq<Addr>)
    requires Chain(link, head, len, l) && Chain(link, head, len, r)
    ensures l == r
    decreases len
  {
    if len > 0 {
      LinkedAt(link, l, 0);
      LinkedAt(link, r, 0);
      PopLinked(link, l);
      PopLinked(link, r);
      ChainIsUnique(link, Next(link, head), len - 1, l[1..], r[1..]);
      assert l == [l[0]] + l[1..] && r == [r[0]] + r[1..];
    }
  }

  /** A detached chain in transit between lists. */
  class Batch {
    const mem: HeaderMemory
    var head: Addr
    var tail: Addr
    var len: nat
    ghost var nodes: seq<Addr>

    ghost predicate Valid()
      reads this, mem
    {
      && Chain(mem.link, head, len, nodes)
      && tail == if nodes == [] then 0 else nodes[|nodes| - 1]
    }

    constructor Empty(mem: HeaderMemory)
      ensures Valid() && nodes == [] && this.mem == mem
    {
      this.mem := mem;
      head, tail, len, nodes := 0, 0, 0, [];
    }

    constructor Detached(mem: HeaderMemory, head: Addr, tail: Addr, len: nat, ghost nodes: seq<Addr>)
      requires Chain(mem.link, head, len, nodes) && tail == if nodes == [] then 0 else nodes[|nodes| - 1]
      ensures Valid() && this.mem == mem && this.nodes == nodes
    {
      this.mem := mem;
      this.head, this.tail, this.len, this.nodes := head, tail, len, nodes;
    }

    /** A batch of one block that is on no list. */
    constructor FromSingle(mem: HeaderMemory, b: Addr)
      requires b != 0
      modifies mem
      ensures Valid() && this.mem == mem && nodes == [b]
      ensures mem.link == old(mem.link)[b := 0] && OthersUnchanged(old(mem.link), mem.link, b)
    {
      this.mem := mem;
      head, tail, len, nodes := b, b, 1, [b];
      new;
      PushLinked(mem.link, b, []);
      assert [b] + [] == [b];
      WriteKeepsOthers(mem.link, b, 0);
      mem.link := mem.link[b := 0];
    }

    method PopBlockUnchecked() returns (b: Addr)
      requires Valid() && len != 0
      modifies this
      ensures Valid() && b == old(nodes)[0] && nodes == old(nodes)[1..]
    {
      b := head;
      LinkedAt(mem.link, nodes, 0);
      PopLinked(mem.link, nodes);
      head, len := Next(mem.link, b), len - 1;
      nodes := nodes[1..];
      if len == 0 {
        tail := 0;
      }
    }
  }

  class FreeList {
    const mem: HeaderMemory
    var head: Addr
    var len: nat
    ghost var nodes: seq<Addr>

    ghost predicate Valid()
      reads this, mem
    {
      Chain(mem.link, head, len, nodes)
    }

    constructor (mem: HeaderMemory)
      ensures Valid() && nodes == [] && this.mem == mem
    {
      this.mem := mem;
      head, len, nodes := 0, 0, [];
    }

    /** Pushes a block that is on no list in front; every chain without it is left alone. */
    method PushBlock(b: Addr)
      requires Valid() && b != 0 && b !in nodes
      modifies this, mem
      ensures Valid() && nodes == [b] + old(nodes)
      ensures mem.link == old(mem.link)[b := Head(old(nodes))]
      ensures OthersUnchanged(old(mem.link), mem.link, b)
    {
      PushLinked(mem.link, b, nodes);
      WriteKeepsOthers(mem.link, b, head);
      mem.link := mem.link[b := head];
      head, len := b, len + 1;
      nodes := [b] + nodes;
    }

    /** Pops the block pushed last; the memory, and so every other chain, is untouched. */
    method PopBlock() returns (r: Option<Addr>)
      requires Valid()
      modifies this
      ensures Valid()
      ensures old(nodes) == [] ==> r == None && nodes == []
      ensures old(nodes) != [] ==> r == Some(old(nodes)[0]) && nodes == old(nodes)[1..]
    {
      if len == 0 {
        return None;
      }
      var b := PopBlockUnchecked();
      r := Some(b);
    }

    method PopBlockUnchecked() returns (b: Addr)
      requires Valid() && len != 0
      modifies this
      ensures Valid() && b == old(nodes)[0] && nodes == old(nodes)[1..]
    {
      b := head;
      LinkedAt(mem.link, nodes, 0);
      PopLinked(mem.link, nodes);
      head, len := Next(mem.link, b), len - 1;
      nodes := nodes[1..];
    }

    /** Splices a batch in front, in its own order, with a single write to its tail. */
    method PushBatch(batch: Batch)
      requires Valid() && batch.Valid() && batch.mem == mem
      requires forall b :: b in batch.nodes ==> b !in nodes
      modifies this, mem
      ensures Valid() && nodes == old(batch.nodes) + old(nodes)
      ensures old(batch.nodes) == [] ==> mem.link == old(mem.link)
      ensures old(batch.nodes) != [] ==>
                && mem.link == old(mem.link[batch.nodes[|batch.nodes| - 1] := Head(nodes)])
                && OthersUnchanged(old(mem.link), mem.link, old(batch.nodes[|batch.nodes| - 1]))
    {
      if batch.len == 0 {
        assert batch.nodes + nodes == nodes;
        return;
      }
      assert batch.nodes != [] && batch.nodes[0] == (batch.nodes + nodes)[0];
      NoDupConcat(batch.nodes, nodes);
      SpliceLinked(mem.link, batch.nodes, nodes);
      WriteKeepsOthers(mem.link, batch.tail, head);
      mem.link := mem.link[batch.tail := head];
      head, len := batch.head, len + batch.len;
      nodes := batch.nodes + nodes;
    }

    /** Detaches exactly the first `max` blocks, or all of a shorter list, with a single write to the last of them. */
    method PopBatch(max: nat) returns (batch: Batch)
      requires Valid()
      modifies this, mem
      ensures Valid() && batch.Valid() && fresh(batch) && batch.mem == mem
      ensures batch.nodes == old(nodes)[..Min(max, |old(nodes)|)]
      ensures nodes == old(nodes)[Min(max, |old(nodes)|)..]
      ensures batch.nodes == [] ==> mem.link == old(mem.link)
      ensures batch.nodes != [] ==>
                && mem.link == old(mem.link)[batch.nodes[|batch.nodes| - 1] := 0]
                && OthersUnchanged(old(mem.link), mem.link, batch.nodes[|batch.nodes| - 1])
    {
      if max == 0 || len == 0 {
        batch := new Batch.Empty(mem);
        return;
      }
      batch := PopBatchUnchecked(max);
    }

    method PopBatchUnchecked(max: nat) returns (batch: Batch)
      requires Valid() && max > 0 && len != 0
      modifies this, mem
      ensures Valid() && batch.Valid() && fresh(batch) && batch.mem == mem
      ensures batch.nodes == old(nodes)[..Min(max, |old(nodes)|)]
      ensures nodes == old(nodes)[Min(max, |old(nodes)|)..]
      ensures batch.nodes != [] && mem.link == old(mem.link)[batch.nodes[|batch.nodes| - 1] := 0]
      ensures OthersUnchanged(old(mem.link), mem.link, batch.nodes[|batch.nodes| - 1])
    {
      var take := Min(max, len);
      var first, tail := head, head;
      for i := 1 to take
        invariant unchanged(this) && unchanged(mem)
        invariant tail == nodes[i - 1]
      {
        LinkedAt(mem.link, nodes, i - 1);
        tail := Next(mem.link, tail);
      }
      LinkedAt(mem.link, nodes, take - 1);
      var remainder := Next(mem.link, tail);
      CutLinked(mem.link, nodes, take);
      WriteKeepsOthers(mem.link, tail, 0);
      mem.link := mem.link[tail := 0];
      ghost var taken := nodes[..take];
      batch := new Batch.Detached(mem, first, tail, take, taken);
      head, len := remainder, len - take;
      nodes := nodes[take..];
    }
  }
}
