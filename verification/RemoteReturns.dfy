/**
 Remote frees on their way to the center (src/thread_cache.rs, src/central_pool.rs): a cache's
 staging list and the class inbox, as counted intrusive lists in one header memory.
 */
module RemoteReturns {
  import opened Basics
  import opened FreeLists

  class RemoteReturnCache {
    const pending: FreeList
    var pendingLen: nat

    ghost predicate Valid()
      reads this, pending, pending.mem
    {
      pending.Valid() && pendingLen == |pending.nodes|
    }

    constructor (mem: HeaderMemory)
      ensures Valid() && fresh(pending) && pending.mem == mem && pending.nodes == []
    {
      pending := new FreeList(mem);
      pendingLen := 0;
    }

    method PushBlock(b: Addr)
      requires Valid() && b != 0 && b !in pending.nodes
      modifies this, pending, pending.mem
      ensures Valid() && pending.nodes == [b] + old(pending.nodes)
      ensures pending.mem.link == old(pending.mem.link)[b := Head(old(pending.nodes))]
      ensures OthersUnchanged(old(pending.mem.link), pending.mem.link, b)
    {
      pending.PushBlock(b);
      pendingLen := pendingLen + 1;
    }

    method TakeAllUnchecked() returns (batch: Batch)
      requires Valid() && pendingLen != 0
      modifies this, pending, pending.mem
      ensures Valid() && pending.nodes == []
      ensures batch.Valid() && fresh(batch) && batch.mem == pending.mem && batch.nodes == old(pending.nodes)
      ensures pending.mem.link == old(pending.mem.link[pending.nodes[|pending.nodes| - 1] := 0])
      ensures OthersUnchanged(old(pending.mem.link), pending.mem.link, old(pending.nodes[|pending.nodes| - 1]))
    {
      batch := pending.PopBatchUnchecked(pendingLen);
      pendingLen := 0;
    }

    /** `flush_remote_returns_for_class`: the whole list goes in front of the inbox, in order. */
    method FlushTo(inbox: RemoteReturnInbox) returns (moved: nat)
      requires Valid() && inbox.Valid() && inbox.pending != pending && inbox.pending.mem == pending.mem
      requires forall b :: b in pending.nodes ==> b !in inbox.pending.nodes
      modifies this, pending, inbox, inbox.pending, pending.mem
      ensures Valid() && inbox.Valid() && pending.nodes == []
      ensures inbox.pending.nodes == old(pending.nodes) + old(inbox.pending.nodes)
      ensures moved == old(|pending.nodes|)
      ensures old(pending.nodes) == [] ==> pending.mem.link == old(pending.mem.link)
      ensures old(pending.nodes) != [] ==>
                && pending.mem.link == old(pending.mem.link[pending.nodes[|pending.nodes| - 1] := Head(inbox.pending.nodes)])
                && OthersUnchanged(old(pending.mem.link), pending.mem.link, old(pending.nodes[|pending.nodes| - 1]))
    {
      if pendingLen == 0 {
        assert pending.nodes + inbox.pending.nodes == inbox.pending.nodes;
        return 0;
      }
      assert pending.nodes[|pending.nodes| - 1] in pending.nodes;
      var batch := TakeAllUnchecked();
      moved := batch.len;
      inbox.PushBatch(batch);
    }
  }

  class RemoteReturnInbox {
    const pending: FreeList
    var pendingLen: nat

    ghost predicate Valid()
      reads this, pending, pending.mem
    {
      pending.Valid() && pendingLen == |pending.nodes|
    }

    constructor (mem: HeaderMemory)
      ensures Valid() && fresh(pending) && pending.mem == mem && pending.nodes == []
    {
      pending := new FreeList(mem);
      pendingLen := 0;
    }

    method PushBatch(batch: Batch)
      requires Valid() && batch.Valid() && batch.mem == pending.mem
      requires forall b :: b in batch.nodes ==> b !in pending.nodes
      modifies this, pending, pending.mem
      ensures Valid() && pending.nodes == old(batch.nodes) + old(pending.nodes)
      ensures old(batch.nodes) == [] ==> pending.mem.link == old(pending.mem.link)
      ensures old(batch.nodes) != [] ==>
                && pending.mem.link == old(pending.mem.link[batch.nodes[|batch.nodes| - 1] := Head(pending.nodes)])
                && OthersUnchanged(old(pending.mem.link), pending.mem.link, old(batch.nodes[|batch.nodes| - 1]))
    {
      var len := batch.len;
      if len == 0 {
        assert batch.nodes + pending.nodes == pending.nodes;
        return;
      }
      pending.PushBatch(batch);
      pendingLen := pendingLen + len;
    }

    /** `take_pending`: the inbox is emptied into one batch. */
    method TakePending() returns (batch: Batch)
      requires Valid()
      modifies this, pending, pending.mem
      ensures Valid() && pending.nodes == []
      ensures batch.Valid() && fresh(batch) && batch.mem == pending.mem && batch.nodes == old(pending.nodes)
      ensures old(pending.nodes) == [] ==> pending.mem.link == old(pending.mem.link)
      ensures old(pending.nodes) != [] ==>
                && pending.mem.link == old(pending.mem.link[pending.nodes[|pending.nodes| - 1] := 0])
                && OthersUnchanged(old(pending.mem.link), pending.mem.link, old(pending.nodes[|pending.nodes| - 1]))
    {
      if pendingLen == 0 {
        batch := new Batch.Empty(pending.mem);
        return;
      }
      batch := pending.PopBatchUnchecked(pendingLen);
      pendingLen := 0;
    }
  }
}
