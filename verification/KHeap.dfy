/** The kernel heap of memory/kheap.c. The headers are all of its memory that matters; they do not overlap,
    since each lies within its block. The memory manager's answers to HeapGrow are parameters. */
module KHeap {
  import opened Utils
  import opened WordBits
  import opened HeapBlocks
  import opened HeapOwned
  import opened Owners

  class KHeap {
    var size: nat
    const grow: nat
    var blocks: nat
    /** The two words of the header at each address. */
    var sizes: map<nat, nat>
    var nexts: map<nat, nat>
    ghost var free: seq<HeapBlock>
    /** The live allocations with their sizes, the bytes that can never be released, and all bytes. */
    ghost var live: map<nat, nat>
    ghost var lost: set<nat>
    ghost var arena: set<nat>

    ghost predicate Valid()
      reads this
    {
      && Linked(free, blocks, sizes, nexts) && Heap(free) && LiveOk(live) && Owned(free, live, lost, arena)
      && (grow != 0 ==> grow >= HEADER && grow % 4 == 0)
    }

    /** kheapInit: one block, the memory that the memory manager gave at ptr. */
    constructor (size: nat, grow: nat, ptr: nat)
      requires BlockOk(HeapBlock(ptr, size)) && (grow != 0 ==> grow >= HEADER && grow % 4 == 0)
      ensures Valid() && free == [HeapBlock(ptr, size)] && live == map[] && lost == {} && arena == Bytes(ptr, size)
      ensures this.grow == grow
    {
      this.size, this.grow, blocks := size, grow, ptr;
      sizes, nexts := map[ptr := size], map[ptr := NULL];
      free, live, lost, arena := [HeapBlock(ptr, size)], map[], {}, Bytes(ptr, size);
      new;
      assert forall x: nat :: Covers(free, x) <==> In(free[0], x);
    }

    method BlockMerge(block: nat, next: nat, ghost i: nat)
      requires Linked(free, blocks, sizes, nexts) && i + 1 < |free| && block == free[i].addr && next == free[i + 1].addr
      modifies this`sizes, this`nexts, this`free
      ensures Linked(free, blocks, sizes, nexts) && free == Merge(old(free), i)
    {
      hide Linked, Merge;
      LinkMerge(free, i, blocks, sizes, nexts);
      if block + sizes[block] == next {
        sizes := sizes[block := sizes[block] + sizes[next]];
        nexts := nexts[block := nexts[next]];
        free := Merge(free, i);
      }
    }

    method BlockExpand(block: nat, addr: nat, n: nat, ghost i: nat) returns (expanded: bool)
      requires Linked(free, blocks, sizes, nexts) && i < |free| && block == free[i].addr
      modifies this`sizes, this`nexts, this`free
      ensures Linked(free, blocks, sizes, nexts) && expanded == (End(old(free)[i]) == addr)
      ensures expanded ==> free == Merge(Grown(old(free), i, n), i)
      ensures !expanded ==> free == old(free) && sizes == old(sizes) && nexts == old(nexts)
    {
      LinkedNode(free, i, blocks, sizes, nexts);
      if block + sizes[block] == addr {
        LinkGrow(free, i, n, blocks, sizes, nexts);
        sizes := sizes[block := sizes[block] + n];
        free := Grown(free, i, n);
        LinkedNode(free, i, blocks, sizes, nexts);
        if nexts[block] != NULL {
          BlockMerge(block, nexts[block], i);
        }
        return true;
      }
      return false;
    }

    /** Write a header at addr and link it in at place i, behind prev. */
    method LinkBlock(addr: nat, n: nat, prev: nat, next: nat, ghost i: nat)
      requires Linked(free, blocks, sizes, nexts) && addr > 0
      requires i <= |free| && prev == NodeAt(free, i - 1) && next == NodeAt(free, i)
      requires (i > 0 ==> prev < addr) && (i < |free| ==> addr < next)
      modifies this`blocks, this`sizes, this`nexts, this`free
      ensures Linked(free, blocks, sizes, nexts) && free == InsertAt(old(free), i, HeapBlock(addr, n))
    {
      LinkPut(free, i, HeapBlock(addr, n), blocks, sizes, nexts);
      free := InsertAt(free, i, HeapBlock(addr, n));
      sizes := sizes[addr := n];
      nexts := nexts[addr := next];
      if prev == NULL {
        blocks := addr;
      } else {
        nexts := nexts[prev := addr];
      }
    }

    /** Puts a run of bytes that is not free into the list; test is null or the last block. Only runs that fit:
        the header of a shorter one would reach into what follows it. */
    method HeapBlockInsert(addr: nat, n: nat, test: nat)
      requires Linked(free, blocks, sizes, nexts) && Heap(free) && addr > 0 && n > 0 && Outside(free, addr, n)
      requires Fits(free, addr, n)
      requires test == NULL || test == NodeAt(free, |free| - 1)
      modifies this`blocks, this`sizes, this`nexts, this`free
      ensures Linked(free, blocks, sizes, nexts) && free == Insert(old(free), addr, n)
    {
      hide Linked, Outside, BlockOk, Merge, Insert, Apart;
      ghost var s := free;
      Between(s, addr, n);
      Ascending(s);
      if test != NULL && test < addr {
        InsertBetween(addr, n, test, NULL);
        return;
      }
      LinkedHead(s, blocks, sizes, nexts);
      if blocks == NULL {
        InsertBetween(addr, n, NULL, NULL);
        return;
      }
      var it := blocks;
      var prev: nat := NULL;
      ghost var i := 0;
      while it != NULL && it < addr
        invariant i <= |s| && it == NodeAt(s, i) && prev == NodeAt(s, i - 1)
        invariant forall j :: 0 <= j < i ==> s[j].addr < addr
        invariant Linked(s, blocks, sizes, nexts) && free == s
        decreases |s| - i
      {
        LinkedNode(s, i, blocks, sizes, nexts);
        prev := it;
        it := nexts[it];
        i := i + 1;
      }
      assert i == Pos(s, addr);
      InsertBetween(addr, n, prev, it);
    }

    /** Insertion once the place is known: prev is the last block below addr, if any, and it the one behind. */
    method InsertBetween(addr: nat, n: nat, prev: nat, it: nat)
      requires Linked(free, blocks, sizes, nexts) && Heap(free) && addr > 0 && n > 0 && Outside(free, addr, n)
      requires Fits(free, addr, n)
      requires prev == NodeAt(free, Pos(free, addr) - 1) && it == NodeAt(free, Pos(free, addr))
      modifies this`blocks, this`sizes, this`nexts, this`free
      ensures Linked(free, blocks, sizes, nexts) && free == Insert(old(free), addr, n)
    {
      hide Linked, Apart, Outside, BlockOk, Merge;
      Between(free, addr, n);
      Ascending(free);
      ghost var i := Pos(free, addr);
      ghost var s := free;
      if prev != NULL {
        // Try Merge
        var expanded := BlockExpand(prev, addr, n, i - 1);
        if expanded { return; }
      }
      LinkBlock(addr, n, prev, it, i);
      if it == NULL {
        MergeNone(free, i);
      } else {
        BlockMerge(addr, it, i);
      }
    }

    method HeapGrow(n: nat, ptr: nat) returns (p: nat)
      modifies this`size
      ensures p == ptr && size == old(size) + if ptr != NULL then n else 0
    {
      if ptr != NULL {
        size := size + n;
      }
      return ptr;
    }

    ghost predicate Grows(n: nat)
      reads this
    {
      FirstFit(free, n) == |free|
    }

    /** Allocate bytes bytes. When the heap has to grow, ptr is the memory that the memory manager gives
        for it, or null. */
    method kmalloc(bytes: nat, ptr: nat) returns (p: nat)
      requires Valid() && 2 * Round(bytes) < WORD
      requires grow != 0 && Grows(Round(bytes)) && ptr != NULL ==>
                 Fresh(free, arena, ptr, Round(bytes), GrowSize(Round(bytes), grow))
      modifies this
      ensures Valid()
      ensures p == NULL <==> grow == 0 || (old(Grows(Round(bytes))) && ptr == NULL)
      ensures p == NULL ==> free == old(free) && live == old(live) && lost == old(lost) && arena == old(arena)
      ensures p != NULL && !old(Grows(Round(bytes))) ==>
                p !in old(live) && TakenFromList(old(free), old(live), old(lost), old(arena), free, live, lost, arena,
                                                 Round(bytes), p)
      ensures p != NULL && old(Grows(Round(bytes))) ==>
                p !in old(live)
                && TakenFromGrowth(old(free), old(live), old(lost), old(arena), free, live, lost, arena, Round(bytes),
                                   p, ptr, GrowSize(Round(bytes), grow))
    {
      hide Linked, Heap, LiveOk, Owned;
      if grow == 0 { return NULL; }
      var n := if bytes < HEADER then HEADER else if bytes % 4 != 0 then bytes - bytes % 4 + 4 else bytes;
      var it := blocks;
      var prev: nat := NULL;
      ghost var i := 0;
      LinkedHead(free, blocks, sizes, nexts);
      while it != NULL && sizes[it] < n
        invariant i <= |free| && it == NodeAt(free, i) && prev == NodeAt(free, i - 1)
        invariant (it == NULL <==> i == |free|) && (it != NULL ==> it in sizes && sizes[it] == free[i].size)
        invariant forall j :: 0 <= j < i ==> free[j].size < n
        invariant unchanged(this)
        decreases |free| - i
      {
        LinkedNode(free, i, blocks, sizes, nexts);
        prev := it;
        it := nexts[it];
        i := i + 1;
        if i < |free| { LinkedNode(free, i, blocks, sizes, nexts); }
      }
      assert n == Round(bytes) && i == FirstFit(free, n);
      if it == NULL {
        p := GrowAndTake(n, ptr, prev);
      } else {
        p := TakeBlock(it, prev, n);
      }
    }

    /** No big enough block available, try fetch more memory. */
    method GrowAndTake(n: nat, ptr: nat, prev: nat) returns (p: nat)
      requires Valid() && grow != 0 && n >= HEADER && n % 4 == 0 && 2 * n < WORD && prev == NodeAt(free, |free| - 1)
      requires ptr != NULL ==> Fresh(free, arena, ptr, n, GrowSize(n, grow))
      modifies this
      ensures Valid() && (p == NULL <==> ptr == NULL)
      ensures p == NULL ==> free == old(free) && live == old(live) && lost == old(lost) && arena == old(arena)
      ensures p != NULL ==>
                p !in old(live)
                && TakenFromGrowth(old(free), old(live), old(lost), old(arena), free, live, lost, arena, n, p, ptr,
                                   GrowSize(n, grow))
    {
      hide Linked, LiveOk, Owned, Outside, Fits, Heap, Insert;
      var g := grow;
      if n > grow - HEADER {
        g := msb32(2 * n);
      }
      var mem := HeapGrow(g, ptr);
      if mem == NULL { return NULL; }
      NewOutside(free, live, lost, arena, mem, g);
      InsertHeap(free, mem, g - n);
      OwnedGrow(free, live, lost, arena, mem, g - n, n);
      HeapBlockInsert(mem, g - n, prev);
      live := live[mem + (g - n) := n];
      arena := arena + Bytes(mem, g);
      return mem + (g - n);
    }

    /** Take n bytes from the block at it, which is large enough. */
    method TakeBlock(it: nat, prev: nat, n: nat) returns (p: nat)
      requires Valid() && grow != 0 && n >= HEADER && n % 4 == 0 && FirstFit(free, n) < |free|
      requires it == free[FirstFit(free, n)].addr && prev == NodeAt(free, FirstFit(free, n) - 1)
      modifies this
      ensures Valid() && p != NULL && p !in old(live)
      ensures TakenFromList(old(free), old(live), old(lost), old(arena), free, live, lost, arena, n, p)
    {
      hide Linked, Heap, LiveOk, Owned, TakeFrom, Taken;
      ghost var i, b := FirstFit(free, n), Taken(free, FirstFit(free, n), n);
      TakeKeeps(free, i, n);
      OwnedTake(free, live, lost, arena, i, n);
      p := Unlink(it, prev, n, i);
      live := live[p := n];
      lost := lost + Bytes(p + n, b.size - n);
    }

    /** The header at it goes, or its block shrinks by n bytes, which p is the address of. */
    method Unlink(it: nat, prev: nat, n: nat, ghost i: nat) returns (p: nat)
      requires Linked(free, blocks, sizes, nexts) && i < |free| && free[i].size >= n
      requires it == free[i].addr && prev == NodeAt(free, i - 1)
      modifies this`blocks, this`sizes, this`nexts, this`free
      ensures Linked(free, blocks, sizes, nexts) && free == TakeFrom(old(free), i, n)
              && p == Taken(old(free), i, n).addr
    {
      hide Linked;
      LinkedNode(free, i, blocks, sizes, nexts);
      if i > 0 { LinkedNode(free, i - 1, blocks, sizes, nexts); }
      if sizes[it] < n + HEADER {
        LinkWithout(free, i, blocks, sizes, nexts);
        if prev == NULL {
          blocks := nexts[it];
        } else {
          nexts := nexts[prev := nexts[it]];
        }
        p := it;
      } else {
        LinkShrink(free, i, n, blocks, sizes, nexts);
        sizes := sizes[it := sizes[it] - n];
        p := it + sizes[it];
      }
      free := TakeFrom(free, i, n);
    }

    /** Release an allocation of bytes bytes. */
    method kfree(ptr: nat, bytes: nat)
      requires Valid() && ptr in live && live[ptr] == Round(bytes)
      modifies this
      ensures Valid() && free == Insert(old(free), ptr, Round(bytes))
      ensures live == old(live) - {ptr} && lost == old(lost) && arena == old(arena)
    {
      hide Linked, LiveOk, Owned, Outside, Heap;
      var n := if bytes < HEADER then HEADER else if bytes % 4 != 0 then bytes - bytes % 4 + 4 else bytes;
      OwnedFree(free, live, lost, arena, ptr);
      LiveBlock(live, ptr);
      HeapBlockInsert(ptr, n, NULL);
      live := live - {ptr};
    }
  }

  lemma Ascending(s: seq<HeapBlock>)
    requires Heap(s)
    ensures forall i, j :: 0 <= i < j < |s| ==> s[i].addr < s[j].addr
    ensures forall i :: 0 <= i < |s| ==> s[i].addr > 0 && s[i].size > 0
  {
  }

  lemma LiveBlock(live: map<nat, nat>, a: nat)
    requires LiveOk(live) && a in live
    ensures BlockOk(HeapBlock(a, live[a]))
  {
  }

  /** New memory is not free. */
  lemma NewOutside(s: seq<HeapBlock>, live: map<nat, nat>, lost: set<nat>, arena: set<nat>, a: nat, g: nat)
    requires Owned(s, live, lost, arena) && forall x: nat :: a <= x < a + g ==> x !in arena
    ensures forall n: nat :: n <= g ==> Outside(s, a, n)
  {
    assert forall x: nat :: a <= x < a + g ==> !Covers(s, x);
  }
}
