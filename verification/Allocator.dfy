/** The allocator of objects of one size of lib/allocator.c. */
module Allocator {
  import opened Arith
  import opened LazyList
  import opened ChunkIds

  class Allocator {
    const maxId: nat
    const allocSize: nat
    /** ALLOCATOR_ALLOW_EXPAND */
    const expands: bool
    /** The allocator and the ones chained to it, in order. */
    var pools: seq<Pool>
    ghost var lists: seq<seq<nat>>
    ghost var unused: seq<nat>

    ghost predicate Valid()
      reads this
    {
      PoolsOk(pools, lists, unused, maxId, allocSize) && pools != [] && (!expands ==> |pools| == 1)
    }

    /** The objects that are not free, by id, counting from chunk k on. */
    ghost predicate IsLive(k: nat, id: nat)
      reads this
    {
      Live(lists, maxId, k, id)
    }

    /** AllocatorInit of a chunk at mem, whose memory is cleared. */
    method NewPool(mem: nat) returns (p: Pool)
      requires mem > 0 && allocSize > 0 && maxId > 0
      ensures p.chunk.data == mem && PoolOk(p, All(maxId), 0, maxId, allocSize)
    {
      p := Pool(Chunk(seq(maxId, _ => NULL), mem, allocSize), maxId, mem);
      NewChunk(p.chunk);
    }

    /** AllocatorInit: size bytes of objects of objSize bytes; mem is what kmalloc gives. */
    constructor (size: nat, objSize: nat, expands: bool, mem: nat)
      requires mem > 0 && objSize > 0 && size >= (objSize + 3) / 4 * 4
      ensures Valid() && forall id: nat :: !IsLive(0, id)
      ensures allocSize % 4 == 0 && objSize <= allocSize < objSize + 4
      ensures maxId > 0 && maxId * allocSize <= size < (maxId + 1) * allocSize
    {
      allocSize := (objSize + 3) / 4 * 4;
      maxId := size / ((objSize + 3) / 4 * 4);
      this.expands := expands;
      pools := [];
      lists, unused := [], [];
      new;
      Division(size, allocSize);
      var p := NewPool(mem);
      pools, lists, unused := [p], [All(maxId)], [0];
      NewChunk(p.chunk);
      forall id: nat
        ensures !IsLive(0, id)
      {
        LiveExpand([], All(maxId), maxId, 0, id);
        assert [] + [All(maxId)] == lists;
      }
    }

    /** AllocatorExpand. */
    method AllocatorExpand(mem: nat)
      requires Valid() && expands && allocSize > 0 && mem > End(pools[|pools| - 1])
      modifies this
      ensures Valid() && lists == old(lists) + [All(maxId)]
      ensures |pools| == |old(pools)| + 1 && pools[..|pools| - 1] == old(pools) && pools[|pools| - 1].nfree == maxId
    {
      hide PoolOk;
      DataBelowEnd(pools[|pools| - 1]);
      var p := NewPool(mem);
      pools, lists, unused := pools + [p], lists + [All(maxId)], unused + [0];
    }

    /** Take the first free object of chunk k. */
    method TakeObj(k: nat, baseId: nat) returns (obj: nat, id: nat)
      requires Valid() && k < |pools| && pools[k].nfree > 0
      modifies this
      ensures Valid() && |pools| == |old(pools)| && obj != NULL && id >= baseId && id - baseId < maxId
      ensures !old(IsLive(k, id - baseId)) && obj == Addr(pools[k].chunk, id - baseId)
      ensures forall x: nat :: IsLive(k, x) <==> old(IsLive(k, x)) || x == id - baseId
      ensures (forall j :: 0 <= j < |pools| && j != k ==> lists[j] == old(lists)[j])
      ensures forall j :: 0 <= j < |pools| ==>
                pools[j].chunk.data == old(pools)[j].chunk.data && pools[j].chunk.step == old(pools)[j].chunk.step
    {
      hide Lazy, AddrAt;
      PoolAt(pools, lists, unused, maxId, allocSize, k);
      var p := pools[k];
      ghost var list, u := lists[k], unused[k];
      FirstFree(p.chunk, list, u, p.free);
      StepPositive(p.chunk, list, u, p.free);
      AddrIndex(p.chunk, list[0]);
      TakeFirst(p.chunk, list, u, p.free);
      obj := p.free;
      var i := (obj - p.chunk.data) / p.chunk.step;
      var link := p.chunk.words[i];
      var nfree := p.nfree - 1;
      var free := if link != NULL then link else if nfree > 0 then obj + p.chunk.step else NULL;
      NextFree(p.chunk, list, u, p.free);
      var p' := Pool(p.chunk.(words := p.chunk.words[i := NULL]), nfree, free);
      ghost var u' := if |list| > maxId - u then u else u + 1;
      PoolsUpdate(pools, lists, unused, maxId, allocSize, k, p', list[1..], u');
      forall x: nat
        ensures Live(lists[k := list[1..]], maxId, k, x) <==> Live(lists, maxId, k, x) || x == i
      {
        LiveUpdate(lists, list[1..], maxId, k, x);
      }
      pools, lists, unused := pools[k := p'], lists[k := list[1..]], unused[k := u'];
      id := baseId + i;
    }

    /** AllocatorGetObj on chunk k, whose ids begin at baseId; mem is what kmalloc gives should the chain
        have to grow. Null if all objects are in use and the chain must not grow. */
    method AllocatorGetObj(k: nat, baseId: nat, mem: nat) returns (obj: nat, id: nat)
      requires Valid() && k < |pools| && mem > End(pools[|pools| - 1])
      modifies this
      ensures Valid() && |pools| >= |old(pools)|
      ensures obj == NULL <==> !expands && old(pools)[k].nfree == 0
      ensures obj == NULL ==> pools == old(pools) && lists == old(lists)
      ensures obj != NULL ==>
                && id >= baseId && !old(IsLive(k, id - baseId)) && AddrOfId(pools, maxId, k, id - baseId) == obj
                && forall x: nat :: IsLive(k, x) <==> old(IsLive(k, x)) || x == id - baseId
      ensures forall j :: 0 <= j < k ==> lists[j] == old(lists)[j]
      ensures forall j :: 0 <= j < |old(pools)| ==>
                pools[j].chunk.data == old(pools)[j].chunk.data && pools[j].chunk.step == old(pools)[j].chunk.step
      decreases |pools| - k
    {
      hide PoolOk, Lazy;
      ghost var was := lists;
      if pools[k].nfree == 0 {
        if !expands { return NULL, 0; }
        NfreeIs(pools, lists, unused, maxId, allocSize, k);
        if k + 1 == |pools| {
          AllocatorExpand(mem);
          assert pools[k + 1].nfree == maxId;
          // The chain ends here: the next call takes this object at once
          obj, id := TakeObj(k + 1, baseId + maxId);
          ghost var more, next := was + [All(maxId)], k + 1;
          AllIn(maxId);
          forall x: nat
            ensures Live(more, maxId, next, x) == Live(was, maxId, next, x)
          {
            LiveExpand(was, All(maxId), maxId, next, x);
          }
        } else {
          obj, id := AllocatorGetObj(k + 1, baseId + maxId, mem);
        }
        forall x: nat
          ensures IsLive(k, x) <==> Live(was, maxId, k, x) || x == id - baseId
        {
          NoneFree(was, maxId, k, x);
          NoneFree(lists, maxId, k, x);
          if x >= maxId {
            assert IsLive(k + 1, x - maxId) <==>
                     Live(was, maxId, k + 1, x - maxId) || x - maxId == id - (baseId + maxId);
          }
        }
      } else {
        obj, id := TakeObj(k, baseId);
      }
    }

    /** An object that is not in use, its id, and room for it. */
    method AllocatorGet(mem: nat) returns (obj: nat, id: nat)
      requires Valid() && mem > End(pools[|pools| - 1])
      modifies this
      ensures Valid() && (obj == NULL <==> !expands && old(pools)[0].nfree == 0)
      ensures obj == NULL ==> forall x: nat :: IsLive(0, x) == old(IsLive(0, x))
      ensures obj != NULL ==>
                && !old(IsLive(0, id)) && AddrOfId(pools, maxId, 0, id) == obj
                && forall x: nat :: IsLive(0, x) <==> old(IsLive(0, x)) || x == id
      ensures forall x: nat :: old(IsLive(0, x)) ==> AddrOfId(pools, maxId, 0, x) == old(AddrOfId(pools, maxId, 0, x))
    {
      hide PoolsOk;
      ghost var before, l := pools, lists;
      obj, id := AllocatorGetObj(0, 0, mem);
      forall x: nat | Live(l, maxId, 0, x)
        ensures AddrOfId(pools, maxId, 0, x) == AddrOfId(before, maxId, 0, x)
      {
        AddrFrame(before, pools, maxId, 0, x);
        LiveHasAddr(before, l, old(unused), maxId, allocSize, 0, x);
      }
    }

    method AllocatorToAddr(k: nat, id: nat) returns (addr: nat)
      requires Valid() && k < |pools|
      ensures addr == AddrOfId(pools, maxId, k, id)
      decreases |pools| - k
    {
      if id >= maxId {
        if k + 1 < |pools| {
          addr := AllocatorToAddr(k + 1, id - maxId);
        } else {
          addr := NULL;
        }
      } else {
        addr := id * pools[k].chunk.step + pools[k].chunk.data;
      }
    }

    /** Give back the object with the given id, counting from chunk k on. */
    method AllocatorFree(k: nat, obj: nat, ghost id: nat) returns (ok: bool)
      requires Valid() && k < |pools| && IsLive(k, id) && obj == AddrOfId(pools, maxId, k, id)
      modifies this
      ensures Valid() && ok && |pools| == |old(pools)|
      ensures forall x: nat :: IsLive(k, x) <==> old(IsLive(k, x)) && x != id
      ensures forall j :: 0 <= j < k ==> lists[j] == old(lists)[j]
      ensures forall j :: 0 <= j < |pools| ==>
                pools[j].chunk.data == old(pools)[j].chunk.data && pools[j].chunk.step == old(pools)[j].chunk.step
      decreases |pools| - k
    {
      hide PoolOk, Lazy;
      ghost var was := lists;
      AddrAbove(pools, lists, unused, maxId, allocSize, k, k, id);
      if obj > pools[k].chunk.data + |pools[k].chunk.words| * pools[k].chunk.step {
        assert k + 1 < |pools|;
        ok := AllocatorFree(k + 1, obj, id - maxId);
        forall x: nat
          ensures IsLive(k, x) <==> Live(was, maxId, k, x) && x != id
        {
          assert lists[k] == was[k];
          if x >= maxId {
            assert IsLive(k + 1, x - maxId) <==> Live(was, maxId, k + 1, x - maxId) && x - maxId != id - maxId;
          }
        }
      } else {
        PutObj(k, obj, id);
        ok := true;
      }
    }

    method AllocatorFreeId(id: nat) returns (ok: bool)
      requires Valid() && IsLive(0, id)
      modifies this
      ensures Valid() && ok && forall x: nat :: IsLive(0, x) <==> old(IsLive(0, x)) && x != id
    {
      var obj := AllocatorToAddr(0, id);
      ok := AllocatorFree(0, obj, id);
    }

    /** An object of chunk k becomes its first free one. */
    method PutObj(k: nat, obj: nat, ghost id: nat)
      requires Valid() && k < |pools| && IsLive(k, id) && id < maxId && obj == Addr(pools[k].chunk, id)
      modifies this
      ensures Valid() && |pools| == |old(pools)|
      ensures forall x: nat :: IsLive(k, x) <==> old(IsLive(k, x)) && x != id
      ensures forall j :: 0 <= j < |pools| && j != k ==> lists[j] == old(lists)[j]
      ensures forall j :: 0 <= j < |pools| ==>
                pools[j].chunk.data == old(pools)[j].chunk.data && pools[j].chunk.step == old(pools)[j].chunk.step
    {
      hide Lazy, AddrAt;
      PoolAt(pools, lists, unused, maxId, allocSize, k);
      var p := pools[k];
      ghost var list, u := lists[k], unused[k];
      StepPositive(p.chunk, list, u, p.free);
      AddrIndex(p.chunk, id);
      PutFirst(p.chunk, list, u, p.free, id);
      var i := (obj - p.chunk.data) / p.chunk.step;
      var p' := Pool(p.chunk.(words := p.chunk.words[i := p.free]), p.nfree + 1, obj);
      PoolsUpdate(pools, lists, unused, maxId, allocSize, k, p', [id] + list, u);
      forall x: nat
        ensures Live(lists[k := [id] + list], maxId, k, x) <==> Live(lists, maxId, k, x) && x != id
      {
        LiveUpdate(lists, [id] + list, maxId, k, x);
      }
      pools, lists := pools[k := p'], lists[k := [id] + list];
      assert unused == unused[k := u];
    }

    /** The user of an object writes its first word. */
    method Write(k: nat, i: nat, word: nat)
      requires Valid() && k < |pools| && i < maxId && IsLive(k, i)
      modifies this`pools
      ensures Valid()
      ensures var chunk := old(pools)[k].chunk;
              pools == old(pools)[k := old(pools)[k].(chunk := chunk.(words := chunk.words[i := word]))]
    {
      hide Lazy;
      PoolAt(pools, lists, unused, maxId, allocSize, k);
      var p := pools[k];
      WriteUsed(p.chunk, lists[k], unused[k], p.free, i, word);
      var p' := p.(chunk := p.chunk.(words := p.chunk.words[i := word]));
      PoolsUpdate(pools, lists, unused, maxId, allocSize, k, p', lists[k], unused[k]);
      assert lists[k := lists[k]] == lists && unused[k := unused[k]] == unused;
      pools := pools[k := p'];
    }
  }

  lemma Division(size: nat, step: nat)
    requires step > 0
    ensures size / step * step <= size < (size / step + 1) * step
    ensures size >= step ==> size / step > 0
  {
  }

  lemma StepPositive(c: Chunk, list: seq<nat>, unused: nat, free: nat)
    requires Lazy(c, list, unused, free)
    ensures c.step > 0 && c.data > 0
  {
  }

  /** What AllocatorGetObj makes of the first object's link. */
  lemma NextFree(c: Chunk, list: seq<nat>, unused: nat, free: nat)
    requires Lazy(c, list, unused, free) && list != [] && list[0] < |c.words|
    ensures var link := c.words[list[0]];
            AddrAt(c, list, 1) == if link != NULL then link else if |list| - 1 > 0 then free + c.step else NULL
  {
    FirstFree(c, list, unused, free);
    AddrIndex(c, list[0]);
    assert |list| > 1 ==> EntryOk(c, list, unused, 1);
    if |list| > 1 { AddrIndex(c, list[1]); }
  }

  lemma AllIn(n: nat)
    ensures forall i: nat :: i in All(n) <==> i < n
  {
    forall i: nat
      ensures i in All(n) <==> i < n
    {
      if i < n { assert All(n)[i] == i; }
    }
  }

  lemma NfreeIs(pools: seq<Pool>, lists: seq<seq<nat>>, unused: seq<nat>, maxId: nat, step: nat, k: nat)
    requires PoolsOk(pools, lists, unused, maxId, step) && k < |pools|
    ensures pools[k].nfree == 0 <==> lists[k] == []
    ensures step > 0
  {
    assert PoolOk(pools[k], lists[k], unused[k], maxId, step);
  }

  /** Live ids have an object. */
  lemma {:induction false} LiveHasAddr(pools: seq<Pool>, lists: seq<seq<nat>>, unused: seq<nat>, maxId: nat,
                                       step: nat, k: nat, id: nat)
    requires PoolsOk(pools, lists, unused, maxId, step) && Live(lists, maxId, k, id)
    ensures AddrOfId(pools, maxId, k, id) != NULL
    decreases |pools| - k
  {
    if id < maxId {
      assert PoolOk(pools[k], lists[k], unused[k], maxId, step);
      AddrIndex(pools[k].chunk, id);
    } else {
      LiveHasAddr(pools, lists, unused, maxId, step, k + 1, id - maxId);
    }
  }
}
