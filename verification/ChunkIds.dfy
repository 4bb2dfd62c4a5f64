/** Chained chunks (lib/allocator.c): ids number the objects of all chunks in turn. */
module ChunkIds {
  import opened LazyList

  /** A chunk with what its header says of its free objects. */
  datatype Pool = Pool(chunk: Chunk, nfree: nat, free: nat)

  ghost predicate PoolOk(p: Pool, list: seq<nat>, unused: nat, maxId: nat, step: nat) {
    && p.chunk.step == step && |p.chunk.words| == maxId && p.nfree == |list|
    && Lazy(p.chunk, list, unused, p.free)
  }

  /** The end of a chunk's data. */
  function End(p: Pool): nat {
    p.chunk.data + |p.chunk.words| * p.chunk.step
  }

  /** Well-formed chunks of maxId objects, each strictly above the ones before. */
  ghost predicate PoolsOk(pools: seq<Pool>, lists: seq<seq<nat>>, unused: seq<nat>, maxId: nat, step: nat) {
    && |pools| == |lists| == |unused| && maxId > 0
    && (forall k :: 0 <= k < |pools| ==> PoolOk(pools[k], lists[k], unused[k], maxId, step))
    && forall j, k :: 0 <= j < k < |pools| ==> End(pools[j]) < pools[k].chunk.data
  }

  /** Counting from chunk k on, id names an object that is not free. */
  predicate Live(lists: seq<seq<nat>>, maxId: nat, k: nat, id: nat)
    decreases |lists| - k
  {
    if k >= |lists| then false
    else if id < maxId then id !in lists[k]
    else Live(lists, maxId, k + 1, id - maxId)
  }

  /** The address of the object that id names, counting from chunk k on; null beyond the last chunk. */
  function AddrOfId(pools: seq<Pool>, maxId: nat, k: nat, id: nat): nat
    decreases |pools| - k
  {
    if k >= |pools| then NULL
    else if id < maxId then Addr(pools[k].chunk, id)
    else AddrOfId(pools, maxId, k + 1, id - maxId)
  }

  /** Only the chunks from k on matter. */
  lemma {:induction false} LiveFrame(lists: seq<seq<nat>>, lists': seq<seq<nat>>, maxId: nat, k: nat, id: nat)
    requires |lists| == |lists'| && forall j :: k <= j < |lists| ==> lists[j] == lists'[j]
    ensures Live(lists, maxId, k, id) == Live(lists', maxId, k, id)
    decreases |lists| - k
  {
    if k < |lists| && id >= maxId { LiveFrame(lists, lists', maxId, k + 1, id - maxId); }
  }

  /** A chunk more, all free, makes no id live. */
  lemma {:induction false} LiveExpand(lists: seq<seq<nat>>, list: seq<nat>, maxId: nat, k: nat, id: nat)
    requires k <= |lists| && forall i: nat :: i in list <==> i < maxId
    ensures Live(lists + [list], maxId, k, id) == Live(lists, maxId, k, id)
    decreases |lists| - k
  {
    if id >= maxId {
      if k < |lists| { LiveExpand(lists, list, maxId, k + 1, id - maxId); }
    }
  }

  /** Addresses only depend on where the chunks are; ids keep their addresses when chunks are added. */
  lemma {:induction false} AddrFrame(pools: seq<Pool>, pools': seq<Pool>, maxId: nat, k: nat, id: nat)
    requires |pools| <= |pools'|
    requires forall j :: 0 <= j < |pools| ==>
               pools'[j].chunk.data == pools[j].chunk.data && pools'[j].chunk.step == pools[j].chunk.step
    ensures AddrOfId(pools, maxId, k, id) != NULL ==> AddrOfId(pools', maxId, k, id) == AddrOfId(pools, maxId, k, id)
    ensures |pools| == |pools'| ==> AddrOfId(pools', maxId, k, id) == AddrOfId(pools, maxId, k, id)
    decreases |pools| - k
  {
    if k < |pools| && id >= maxId { AddrFrame(pools, pools', maxId, k + 1, id - maxId); }
  }

  /** The objects of later chunks lie above the end of chunk k, its own below. */
  lemma {:induction false} AddrAbove(pools: seq<Pool>, lists: seq<seq<nat>>, unused: seq<nat>, maxId: nat, step: nat,
                                     k: nat, m: nat, id: nat)
    requires PoolsOk(pools, lists, unused, maxId, step) && k < |pools| && k <= m && Live(lists, maxId, m, id)
    ensures k < m || id >= maxId ==> AddrOfId(pools, maxId, m, id) > End(pools[k])
    ensures k == m && id < maxId ==> AddrOfId(pools, maxId, m, id) < End(pools[k])
    decreases |pools| - m
  {
    if id < maxId {
      assert PoolOk(pools[m], lists[m], unused[m], maxId, step);
      AddrIndex(pools[m].chunk, id);
    } else {
      AddrAbove(pools, lists, unused, maxId, step, k, m + 1, id - maxId);
    }
  }

  /** Different live ids have different objects. */
  lemma {:induction false} IdsDiffer(pools: seq<Pool>, lists: seq<seq<nat>>, unused: seq<nat>, maxId: nat, step: nat,
                                     k: nat, id: nat, id': nat)
    requires PoolsOk(pools, lists, unused, maxId, step) && Live(lists, maxId, k, id) && Live(lists, maxId, k, id')
             && id < id'
    ensures AddrOfId(pools, maxId, k, id) != AddrOfId(pools, maxId, k, id')
    decreases |pools| - k
  {
    if id >= maxId {
      IdsDiffer(pools, lists, unused, maxId, step, k + 1, id - maxId, id' - maxId);
    } else if id' < maxId {
      assert PoolOk(pools[k], lists[k], unused[k], maxId, step);
      AddrIndex(pools[k].chunk, id);
      AddrIndex(pools[k].chunk, id');
    } else {
      AddrAbove(pools, lists, unused, maxId, step, k, k, id);
      AddrAbove(pools, lists, unused, maxId, step, k, k, id');
    }
  }

  // ----- One chunk of the chain changes -----

  lemma PoolAt(pools: seq<Pool>, lists: seq<seq<nat>>, unused: seq<nat>, maxId: nat, step: nat, k: nat)
    requires PoolsOk(pools, lists, unused, maxId, step) && k < |pools|
    ensures PoolOk(pools[k], lists[k], unused[k], maxId, step)
  {
  }

  /** Another state of chunk k. */
  lemma PoolsUpdate(pools: seq<Pool>, lists: seq<seq<nat>>, unused: seq<nat>, maxId: nat, step: nat, k: nat,
                    p: Pool, list: seq<nat>, u: nat)
    requires PoolsOk(pools, lists, unused, maxId, step) && k < |pools|
    requires PoolOk(p, list, u, maxId, step) && p.chunk.data == pools[k].chunk.data
    ensures PoolsOk(pools[k := p], lists[k := list], unused[k := u], maxId, step)
  {
    hide PoolOk;
    PoolAt(pools, lists, unused, maxId, step, k);
    SameEnd(pools[k], lists[k], unused[k], p, list, u, maxId, step);
  }

  lemma SameEnd(p: Pool, list: seq<nat>, u: nat, p': Pool, list': seq<nat>, u': nat, maxId: nat, step: nat)
    requires PoolOk(p, list, u, maxId, step) && PoolOk(p', list', u', maxId, step) && p'.chunk.data == p.chunk.data
    ensures End(p') == End(p) && p'.chunk.step == p.chunk.step
  {
  }

  lemma DataBelowEnd(p: Pool)
    ensures p.chunk.data <= End(p)
  {
  }

  /** Live ids when the objects of one chunk change from not in list to not in list'. */
  lemma LiveUpdate(lists: seq<seq<nat>>, list: seq<nat>, maxId: nat, k: nat, id: nat)
    requires k < |lists|
    ensures Live(lists[k := list], maxId, k, id) == if id < maxId then id !in list else Live(lists, maxId, k, id)
  {
    if id >= maxId { LiveFrame(lists, lists[k := list], maxId, k + 1, id - maxId); }
  }

  /** A chunk whose objects are all in use. */
  lemma NoneFree(lists: seq<seq<nat>>, maxId: nat, k: nat, id: nat)
    requires k < |lists| && lists[k] == []
    ensures id < maxId ==> Live(lists, maxId, k, id)
    ensures id >= maxId ==> Live(lists, maxId, k, id) == Live(lists, maxId, k + 1, id - maxId)
  {
  }
}
