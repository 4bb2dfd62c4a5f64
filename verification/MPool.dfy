/** Memory pools of memory/mpool.c that allocate blocks of any size from mapped memory, so that a free
    block's header is in the block itself. */
module MPool {
  import opened Utils
  import opened HeapBlocks
  import opened Owners
  import opened PoolRing
  import opened RingLinks

  class MPool {
    const start: nat
    const end: nat
    /** The alignment of all blocks. */
    const size: nat
    /** MPOOL_PFULL; MPOOL_PFREE is its opposite. */
    var pfull: bool
    var mHead: nat
    /** The words of the header at each address. */
    var sizes: map<nat, nat>
    var next: map<nat, nat>
    var prev: map<nat, nat>
    ghost var ring: seq<HeapBlock>
    ghost var live: map<nat, nat>
    ghost var lost: set<nat>

    ghost predicate Linked()
      reads this
    {
      Looped(ring, sizes, next, prev) && mHead == HeadOf(ring)
    }

    ghost predicate Valid()
      reads this
    {
      && size > 0 && Linked() && Ring(ring, size) && (pfull <==> ring == [])
      && LiveApart(live) && (forall a :: a in live ==> PoolBlock(HeapBlock(a, live[a]), size))
      && start <= end && Owned(ring, live, lost, Bytes(start, end - start))
      && (Even() ==> Lossless(ring, live, lost, size))
    }

    /** The alignment is at least a header's size, and both ends are aligned. */
    ghost predicate Even() {
      size >= MPOOL_NINSIZE && start % size == 0 && end % size == 0
    }

    /** The free blocks and the live allocations make up such a pool. */
    lemma MakeUpPool(x: nat)
      requires Valid() && Even()
      ensures start <= x < end <==> Covers(ring, x) || Lives(live, x)
      ensures !(Covers(ring, x) && Lives(live, x))
    {
      hide Covers, Lives, Looped, Ring, LiveApart;
      assert start <= x < end <==> x in Bytes(start, end - start);
    }

    constructor (start: nat, end: nat, align: nat)
      requires align > 0 && start > 0 && start % align == 0 && start + MPOOL_NINSIZE <= end
      ensures Valid() && ring == [HeapBlock(start, end - start)] && live == map[] && lost == {}
      ensures this.start == start && this.end == end && size == align
    {
      this.start, this.end, size, pfull, mHead := start, end, align, false, start;
      sizes, next, prev := map[start := end - start], map[start := start], map[start := start];
      ring, live, lost := [HeapBlock(start, end - start)], map[], {};
      new;
      assert Node(ring, 0, sizes, next, prev);
      if Even() { LosslessStart(start, end, align); }
      forall x: nat
        ensures Covers(ring, x) <==> start <= x < end
      {
        OneBlock(start, end - start, x);
      }
    }

    /** The first block above addr, or the head. */
    method FindStop(addr: nat) returns (it: nat, ghost i: nat)
      requires Linked() && ring != []
      ensures i == StopAt(ring, addr) && it == ring[i].addr
    {
      it := mHead;
      i := 0;
      while true
        invariant i < |ring| && it == ring[i].addr
        invariant forall j :: 0 <= j < i ==> ring[j].addr <= addr
        decreases |ring| - i
      {
        if it > addr {
          assert i == FirstAbove(ring, addr);
          return;
        }
        LoopNode(ring, i, sizes, next, prev);
        it := next[it];
        if it == mHead {
          Same(ring, Succ(i, |ring|), 0);
          assert FirstAbove(ring, addr) == |ring|;
          i := 0;
          return;
        }
        i := i + 1;
      }
    }

    /** The block at it leaves the ring and the one before it takes its bytes and n more. */
    method Bridge(it: nat, n: nat, ghost i: nat)
      requires Linked() && 0 < |ring| - 1 && i < |ring| && it == ring[i].addr
      modifies this`mHead, this`sizes, this`next, this`prev, this`ring
      ensures Linked() && ring == if i == 0 then Bridged(Turned(old(ring)), 1, n) else Bridged(old(ring), i, n)
    {
      hide Looped, Node, Grown, Bridged;
      ghost var s, k := ring, i;
      if i == 0 {
        LoopTurn(s, sizes, next, prev);
        s, k := Turned(s), 1;
      }
      LoopLinks(s, k, sizes, next, prev);
      LoopLinks(s, k - 1, sizes, next, prev);
      LoopLinks(ring, 0, sizes, next, prev);
      LoopSame(ring, i, 0, sizes, next, prev);
      LoopBridge(s, k, n, sizes, next, prev);
      var pmm := prev[it];
      sizes := sizes[pmm := sizes[pmm] + (n + sizes[it])];
      next, prev := next[pmm := next[it]], prev[next[it] := pmm];
      if mHead == it {
        mHead := pmm;
      }
      ring := Bridged(s, k, n);
    }

    /** A header at addr takes the place of the one at it. */
    method Replace(it: nat, addr: nat, n: nat, ghost i: nat)
      requires Linked() && i < |ring| && it == ring[i].addr && addr > 0
      requires forall j :: 0 <= j < |ring| ==> ring[j].addr != addr
      modifies this`mHead, this`sizes, this`next, this`prev, this`ring
      ensures Linked() && ring == old(ring)[i := HeapBlock(addr, n)]
    {
      hide Looped, Node;
      ghost var b := HeapBlock(addr, n);
      LoopLinks(ring, i, sizes, next, prev);
      LoopReplace(ring, i, b, sizes, next, prev);
      LoopSame(ring, i, 0, sizes, next, prev);
      LoopSame(ring, Succ(i, |ring|), i, sizes, next, prev);
      if next[it] == it {
        next, prev := next[addr := addr], prev[addr := addr];
      } else {
        var x, y := prev[it], next[it];
        next, prev := next[addr := y][x := addr], prev[addr := x][y := addr];
      }
      sizes := sizes[addr := n];
      if mHead == it {
        mHead := addr;
      }
      ring := ring[i := b];
    }

    /** A new header at addr before the one at it. */
    method LinkIn(it: nat, addr: nat, n: nat, ghost i: nat)
      requires Linked() && i < |ring| && it == ring[i].addr && addr > 0
      requires forall j :: 0 <= j < |ring| ==> ring[j].addr != addr
      modifies this`mHead, this`sizes, this`next, this`prev, this`ring
      ensures Linked() && ring == InsertAt(old(ring), i, HeapBlock(addr, n))
    {
      hide Looped, Node;
      ghost var b := HeapBlock(addr, n);
      LoopLinks(ring, i, sizes, next, prev);
      LoopPut(ring, i, b, sizes, next, prev);
      LoopSame(ring, i, 0, sizes, next, prev);
      if mHead == it {
        mHead := addr;
      }
      sizes := sizes[addr := n];
      next, prev := next[addr := it][prev[it] := addr], prev[addr := prev[it]][it := addr];
      ring := InsertAt(ring, i, b);
    }

    method Unlink(pmm: nat, ghost i: nat)
      requires Linked() && i < |ring| && pmm == ring[i].addr
      modifies this`mHead, this`next, this`prev, this`ring
      ensures Linked() && ring == Cut(old(ring), i)
    {
      hide Looped, Node;
      LoopLinks(ring, i, sizes, next, prev);
      LoopSame(ring, i, 0, sizes, next, prev);
      LoopSame(ring, Succ(i, |ring|), i, sizes, next, prev);
      if next[pmm] != pmm {
        LoopRemove(ring, i, sizes, next, prev);
        if pmm == mHead {
          mHead := next[pmm];
        }
        next, prev := next[prev[pmm] := next[pmm]], prev[next[pmm] := prev[pmm]];
      } else {
        mHead := NULL;
        prev, next := prev[pmm := NULL], next[pmm := NULL];
        LoopEmpty(sizes, next, prev);
      }
      ring := Cut(ring, i);
    }

    /** Put a run that has room for a header into the ring. */
    method pmmInsert(addr: nat, n: nat)
      requires size > 0 && Linked() && Ring(ring, size) && addr > 0 && n >= MPOOL_NINSIZE && Outside(ring, addr, n)
      modifies this`mHead, this`sizes, this`next, this`prev, this`ring
      ensures Linked() && ring == RingInsert(old(ring), addr, n)
    {
      hide Looped, Node, Ring, Outside;
      if mHead == NULL {
        LoopHead(ring, sizes, next, prev);
        sizes, next, prev := sizes[addr := n], next[addr := addr], prev[addr := addr];
        mHead := addr;
        ring := [HeapBlock(addr, n)];
        LoopOne(ring[0], sizes, next, prev);
        return;
      }
      RunNames(ring, addr, n, size);
      LoopHead(ring, sizes, next, prev);
      var it: nat;
      ghost var i: nat;
      it, i := FindStop(addr);
      LoopLinks(ring, i, sizes, next, prev);
      LoopLinks(ring, Pred(i, |ring|), sizes, next, prev);
      var pmm := prev[it];
      var skip := pmm + sizes[pmm] == addr;
      if it == addr + n {
        if skip {
          Bridge(it, n, i);
        } else {
          Replace(it, addr, n + sizes[it], i);
        }
      } else if skip {
        LoopGrow(ring, Pred(i, |ring|), n, sizes, next, prev);
        sizes := sizes[pmm := sizes[pmm] + n];
        ring := Grown(ring, Pred(i, |ring|), n);
      } else {
        LinkIn(it, addr, n, i);
      }
    }

    /** The first block from the head on that has n bytes, or null. */
    method pmmSearch(n: nat) returns (it: nat)
      requires Linked()
      ensures it == if FirstFit(ring, n) < |ring| then ring[FirstFit(ring, n)].addr else NULL
    {
      hide Looped, Node;
      LoopHead(ring, sizes, next, prev);
      if mHead == NULL { return NULL; }
      it := mHead;
      ghost var i := 0;
      LoopLinks(ring, 0, sizes, next, prev);
      while sizes[it] < n
        invariant i < |ring| && it == ring[i].addr && it in sizes && sizes[it] == ring[i].size
        invariant forall j :: 0 <= j < i ==> ring[j].size < n
        decreases |ring| - i
      {
        LoopLinks(ring, i, sizes, next, prev);
        it := next[it];
        if it == mHead {
          LoopSame(ring, Succ(i, |ring|), 0, sizes, next, prev);
          assert FirstFit(ring, n) == |ring|;
          return NULL;
        }
        i := i + 1;
        LoopLinks(ring, i, sizes, next, prev);
      }
      assert i == FirstFit(ring, n);
    }

    /** Take a block of n bytes out of the ring. */
    method pmmGet(n: nat) returns (pmm: nat)
      requires size > 0 && Linked() && Ring(ring, size) && n >= MPOOL_NINSIZE
      modifies this`mHead, this`sizes, this`next, this`prev, this`ring
      ensures Linked() && (pmm == NULL <==> FirstFit(old(ring), n) == |old(ring)|)
      ensures pmm == NULL ==> ring == old(ring)
      ensures pmm != NULL ==> var i := FirstFit(old(ring), n);
                pmm == old(ring)[i].addr && ring == RingTake(old(ring), i, n)
    {
      hide Looped, Node;
      pmm := pmmSearch(n);
      ghost var i := FirstFit(ring, n);
      if i < |ring| { LoopLinks(ring, i, sizes, next, prev); }
      if pmm != NULL {
        if sizes[pmm] >= n + MPOOL_NINSIZE {
          // Trim the memory block
          RestNames(ring, i, n, size);
          Replace(pmm, pmm + n, sizes[pmm] - n, i);
          LoopFrame(ring, pmm, n, sizes, next, prev);
          sizes := sizes[pmm := n];
        } else {
          Unlink(pmm, i);
        }
      }
    }

    /** The size that a request is rounded to. */
    function Rounded(bytes: nat): (n: nat)
      requires size > 0
      ensures n >= MPOOL_NINSIZE && n >= bytes && n % size == 0
      ensures n < MPOOL_NINSIZE + size || n < bytes + size
    {
      RoundUp(if bytes < MPOOL_NINSIZE then MPOOL_NINSIZE else bytes, size)
    }

    /** A block of at least bytes bytes, or null if no free block is large enough. */
    method MemoryBlockAlloc(bytes: nat) returns (p: nat)
      requires Valid()
      modifies this
      ensures Valid()
      ensures p == NULL <==> forall i :: 0 <= i < |old(ring)| ==> old(ring)[i].size < Rounded(bytes)
      ensures p == NULL ==> ring == old(ring) && live == old(live) && lost == old(lost)
      ensures p != NULL ==>
                var n, i := Rounded(bytes), FirstFit(old(ring), Rounded(bytes));
                && p == old(ring)[i].addr && ring == RingTake(old(ring), i, n)
                && p !in old(live) && live == old(live)[p := n]
                && lost == old(lost) + Bytes(p + n, Used(old(ring)[i], n) - n)
    {
      hide Looped, Ring, Owned, LiveApart, Lossless;
      if pfull {
        return NULL;
      }
      // First thing make sure the size is at least MPOOL_NINSIZE, second thing ensure alignment
      var n := RoundUp(if bytes < MPOOL_NINSIZE then MPOOL_NINSIZE else bytes, size);
      p := TakeRounded(n);
    }

    /** Find a free memory block big enough. */
    method TakeRounded(n: nat) returns (p: nat)
      requires Valid() && !pfull && n >= MPOOL_NINSIZE && n % size == 0
      modifies this
      ensures Valid() && (p == NULL <==> FirstFit(old(ring), n) == |old(ring)|)
      ensures p == NULL ==> ring == old(ring) && live == old(live) && lost == old(lost)
      ensures p != NULL ==>
                var i := FirstFit(old(ring), n);
                && p == old(ring)[i].addr && ring == RingTake(old(ring), i, n)
                && p !in old(live) && live == old(live)[p := n]
                && lost == old(lost) + Bytes(p + n, Used(old(ring)[i], n) - n)
    {
      hide Looped, Ring, Owned, LiveApart, RingTake, Used, Lossless;
      ghost var i, s := FirstFit(ring, n), ring;
      if i < |ring| {
        if Even() { LosslessTake(ring, live, lost, i, n, size); }
        OwnedRingTake(ring, live, lost, Bytes(start, end - start), i, n, size);
        AlignedBlock(ring, i, n, size);
      }
      p := pmmGet(n);
      if p == NULL {
        return NULL;
      }
      // Update the memory pool flags
      if mHead == NULL {
        pfull := true;
      }
      LoopHead(ring, sizes, next, prev);
      live := live[p := n];
      lost := lost + Bytes(p + n, Used(s[i], n) - n);
    }

    /** Give back an allocation of bytes bytes. */
    method MemoryBlockFree(ptr: nat, bytes: nat)
      requires Valid() && ptr in live && live[ptr] == Rounded(bytes)
      modifies this
      ensures Valid() && !pfull && ring == RingInsert(old(ring), ptr, Rounded(bytes))
      ensures live == old(live) - {ptr} && lost == old(lost)
    {
      hide Looped, Ring, Owned, LiveApart, Outside, Lossless;
      if Even() { LosslessFree(ring, live, lost, ptr, size); }
      var n := RoundUp(if bytes < MPOOL_NINSIZE then MPOOL_NINSIZE else bytes, size);
      var addr := ptr - ptr % size;
      OwnedRingFree(ring, live, lost, Bytes(start, end - start), addr, size);
      // Insert the memory block in the memory pool
      pmmInsert(addr, n);
      // Update the memory pool flags
      pfull := false;
      live := live - {ptr};
    }
  }

  lemma AlignedBlock(s: seq<HeapBlock>, i: nat, n: nat, align: nat)
    requires align > 0 && Ring(s, align) && i < |s| && n >= MPOOL_NINSIZE
    ensures PoolBlock(HeapBlock(s[i].addr, n), align)
  {
  }
}
