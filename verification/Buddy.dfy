/** The buddy allocator of memory/buddy_2.c, proved against the lists of BuddyLists. */
module Buddy {
  import opened Utils
  import opened BuddyPages
  import opened BuddyLists
  import opened BuddyLinks

  /** Convert a byte size or address to an order: the position of its lowest set bit. */
  method GetOrder(size: nat) returns (order: nat)
    ensures order == ByteOrder(size)
  {
    var s := LowBit(size) / 8192;
    ghost var e := if size == 0 then 0 else Exp2(size);
    Pow2Of13();
    if size > 0 { Pow2Div(e, 13); }
    order := 0;
    while s != 0 && order < MAX_ORDER
      invariant order <= MAX_ORDER
      invariant s == if size > 0 && e >= 13 + order then Pow2(e - 13 - order) else 0
      invariant order > 0 ==> size > 0 && e >= 12 + order
    {
      order := order + 1;
      s := s / 2;
    }
  }

  /** The largest order whose block fits into size bytes. */
  method GetMaxOrder(size: nat) returns (count: nat)
    ensures count == MaxOrderOf(size / PAGE_SIZE)
  {
    count := 0;
    var s := size / 8192;
    ghost var n := size / PAGE_SIZE;
    while s != 0 && count < 10
      invariant count <= 10 && n >= 0 && s == n / 2
      invariant Log(size / PAGE_SIZE) == count + Log(n)
    {
      n := n / 2;
      s := s / 2;
      count := count + 1;
    }
  }

  class Buddy {
    const vAddr: nat
    const offset: nat
    const availableMemory: nat
    const mBlocks: array<nat>
    var next: map<nat, nat>
    var prev: map<nat, nat>
    /** The first pages of the blocks in each list. */
    ghost var lists: seq<seq<nat>>
    /** The pages that are free. */
    ghost var free: set<nat>

    ghost predicate WellLinked()
      reads this, mBlocks
    {
      mBlocks.Length == MAX_ORDER + 1 && AllLinked(lists, mBlocks[..], next, prev)
    }

    /** The lists are the canonical ones of the free pages. */
    ghost predicate Valid()
      reads this, mBlocks
    {
      WellLinked() && Canonical(lists, free)
    }

    method BlockGet(order: nat) returns (addr: nat)
      requires WellLinked() && order <= MAX_ORDER
      modifies this`prev, this`lists, mBlocks
      ensures WellLinked()
      ensures old(lists)[order] == [] ==> addr == NULL && lists == old(lists)
      ensures old(lists)[order] != [] ==>
                && addr > 0 && addr == PAGE_SIZE * old(lists)[order][0]
                && lists == old(lists)[order := old(lists)[order][1..]]
    {
      ghost var s, heads := lists[order], mBlocks[..];
      if s != [] {
        PopHead(lists, heads, next, prev, order, if |s| == 1 then prev else prev[At(s, 1) := NULL]);
      }
      if mBlocks[order] != NULL {
        addr := mBlocks[order];
        mBlocks[order] := next[addr];
        if mBlocks[order] != NULL {
          prev := prev[mBlocks[order] := NULL];
        }
        lists := lists[order := s[1..]];
        assert mBlocks[..] == heads[order := At(s, 1)];
      } else {
        addr := NULL;
      }
    }

    method BlockRemove(mBlock: nat, order: nat, ghost i: nat)
      requires WellLinked() && order <= MAX_ORDER
      requires i < |lists[order]| && mBlock == PAGE_SIZE * lists[order][i]
      modifies this`next, this`prev, this`lists, mBlocks
      ensures WellLinked()
      ensures lists == old(lists)[order := Remove(old(lists)[order], old(lists)[order][i])]
    {
      ghost var s, heads := lists[order], mBlocks[..];
      Around(lists, heads, next, prev, order, i);
      if prev[mBlock] == NULL {
        mBlocks[order] := next[mBlock];
      } else {
        next := next[prev[mBlock] := next[mBlock]];
      }
      if next[mBlock] != NULL {
        prev := prev[next[mBlock] := prev[mBlock]];
      }
      next := next[mBlock := NULL];
      prev := prev[mBlock := NULL];
      RemoveFrom(lists, heads, old(next), old(prev), order, i, next, prev);
      lists := lists[order := Remove(s, s[i])];
      assert mBlocks[..] == if i == 0 then heads[order := At(s, 1)] else heads;
    }

    /** Left has to be aligned to the next order and right has to follow it. */
    method IsBuddy(left: nat, right: nat, order: nat, ghost p: nat) returns (r: bool)
      requires left == PAGE_SIZE * p && p > 0 && order <= MAX_ORDER
      ensures r <==> order < MAX_ORDER && Aligned(p, order + 1) && right == left + PAGE_SIZE * Pow2(order)
    {
      var leftOrder := GetOrder(left);
      ByteOrderOfPage(p);
      if order < MAX_ORDER { AlignedUpTo(p, order + 1); }
      r := leftOrder > order && left + PAGE_SIZE * Pow2(order) == right;
    }

    // The three ways the insertions below link a block into list order.

    method LinkOnly(mBlock: nat, order: nat, ghost p: nat)
      requires WellLinked() && order <= MAX_ORDER && NewBlock(mBlock, p, order) && lists[order] == []
      modifies this`next, this`prev, this`lists, mBlocks
      ensures WellLinked()
      ensures lists == old(lists)[order := SortedInsert(old(lists)[order], p)]
    {
      ghost var heads := mBlocks[..];
      mBlocks[order] := mBlock;
      next := next[mBlock := NULL];
      prev := prev[mBlock := NULL];
      InsertInto(lists, heads, old(next), old(prev), order, 0, p, next, prev);
      lists := lists[order := SortedInsert([], p)];
      assert mBlocks[..] == heads[order := mBlock];
    }

    method LinkBefore(it: nat, mBlock: nat, order: nat, ghost p: nat, ghost i: nat)
      requires WellLinked() && order <= MAX_ORDER && NewBlock(mBlock, p, order)
      requires i < |lists[order]| && it == At(lists[order], i) && it > mBlock
      requires forall j :: 0 <= j < i ==> lists[order][j] < p
      modifies this`next, this`prev, this`lists, mBlocks
      ensures WellLinked()
      ensures lists == old(lists)[order := SortedInsert(old(lists)[order], p)]
    {
      ghost var s, heads := lists[order], mBlocks[..];
      Around(lists, heads, next, prev, order, i);
      next := next[mBlock := it];
      prev := prev[mBlock := prev[it]];
      if prev[it] != NULL {
        next := next[prev[it] := mBlock];
      } else {
        mBlocks[order] := mBlock;
      }
      prev := prev[it := mBlock];
      InsertInto(lists, heads, old(next), old(prev), order, i, p, next, prev);
      lists := lists[order := SortedInsert(s, p)];
      assert mBlocks[..] == if i == 0 then heads[order := mBlock] else heads;
    }

    method LinkLast(it: nat, mBlock: nat, order: nat, ghost p: nat)
      requires WellLinked() && order <= MAX_ORDER && NewBlock(mBlock, p, order)
      requires |lists[order]| > 0 && it == At(lists[order], |lists[order]| - 1)
      requires forall j :: 0 <= j < |lists[order]| ==> lists[order][j] < p
      modifies this`next, this`prev, this`lists, mBlocks
      ensures WellLinked()
      ensures lists == old(lists)[order := SortedInsert(old(lists)[order], p)]
    {
      ghost var s, heads := lists[order], mBlocks[..];
      next := next[mBlock := NULL];
      prev := prev[mBlock := it];
      next := next[it := mBlock];
      InsertInto(lists, heads, old(next), old(prev), order, |s|, p, next, prev);
      lists := lists[order := SortedInsert(s, p)];
    }

    method BlockInsert(mBlock: nat, order: nat, ghost p: nat)
      requires WellLinked() && order <= MAX_ORDER && NewBlock(mBlock, p, order)
      modifies this`next, this`prev, this`lists, mBlocks
      ensures WellLinked()
      ensures lists == old(lists)[order := SortedInsert(old(lists)[order], p)]
    {
      ghost var s, heads := lists[order], mBlocks[..];
      var it := mBlocks[order];
      HeadIsNull(lists, heads, next, prev, order);
      if it == NULL {
        LinkOnly(mBlock, order, p);
        return;
      }
      ghost var i := 0;
      while it != NULL
        invariant i < |s| && it == At(s, i)
        invariant forall j :: 0 <= j < i ==> s[j] < p
        invariant next == old(next) && prev == old(prev) && lists == old(lists) && mBlocks[..] == heads
        decreases |s| - i
      {
        Around(lists, heads, next, prev, order, i);
        assert s[i] in s && s[i] != p by { assert Listed(lists, s[i]); }
        if it > mBlock {
          LinkBefore(it, mBlock, order, p, i);
          return;
        }
        if next[it] == NULL {
          LinkLast(it, mBlock, order, p);
          return;
        }
        it := next[it];
        i := i + 1;
      }
    }

    /** Unlink the buddy and reinsert the block that the two make, which starts at low. */
    method MergeWith(buddy: nat, low: nat, order: nat, ghost p: nat, ghost i: nat)
      requires WellLinked() && order < MAX_ORDER && p > 0 && Aligned(p, order) && !Listed(lists, p)
      requires i < |lists[order]| && buddy == At(lists[order], i)
      requires FreeBuddy(lists, p, order) == Some(lists[order][i])
      requires low == PAGE_SIZE * if p < lists[order][i] then p else lists[order][i]
      modifies this`next, this`prev, this`lists, mBlocks
      ensures WellLinked()
      ensures lists == InsertMerge(old(lists), p, order)
      decreases MAX_ORDER - order, 0
    {
      ghost var b := lists[order][i];
      assert b in lists[order] && b > 0;
      ghost var l := if p < b then p else b;
      Unlisted(lists, mBlocks[..], next, prev, order, b, l);
      BlockRemove(buddy, order, i);
      BlockInsertMerge(low, order + 1, l);
    }

    method BlockInsertMerge(mBlock: nat, order: nat, ghost p: nat)
      requires WellLinked() && order <= MAX_ORDER && NewBlock(mBlock, p, order)
      modifies this`next, this`prev, this`lists, mBlocks
      ensures WellLinked()
      ensures lists == InsertMerge(old(lists), p, order)
      decreases MAX_ORDER - order, 1
    {
      hide SortedInsert, Remove;
      ghost var s, heads := lists[order], mBlocks[..];
      var it := mBlocks[order];
      HeadIsNull(lists, heads, next, prev, order);
      if it == NULL {
        BuddySpot(lists, p, order, 0);
        LinkOnly(mBlock, order, p);
        return;
      }
      ghost var i := 0;
      while it != NULL
        invariant i < |s| && it == At(s, i)
        invariant forall j :: 0 <= j < i ==> s[j] < p
        invariant next == old(next) && prev == old(prev) && lists == old(lists) && mBlocks[..] == heads
        decreases |s| - i
      {
        Around(lists, heads, next, prev, order, i);
        assert s[i] in s && s[i] != p by { assert Listed(lists, s[i]); }
        if it > mBlock {
          BuddySpot(lists, p, order, i);
          var right := IsBuddy(mBlock, it, order, p);
          if right {
            MergeWith(it, mBlock, order, p, i);
            return;
          }
          var left := false;
          if prev[it] != NULL {
            left := IsBuddy(prev[it], mBlock, order, s[i - 1]);
          }
          if left {
            MergeWith(prev[it], prev[it], order, p, i - 1);
            return;
          }
          LinkBefore(it, mBlock, order, p, i);
          return;
        }
        if next[it] == NULL {
          BuddySpot(lists, p, order, i + 1);
          var left := IsBuddy(it, mBlock, order, s[i]);
          if left {
            MergeWith(it, it, order, p, i);
            return;
          }
          LinkLast(it, mBlock, order, p);
          return;
        }
        it := next[it];
        i := i + 1;
      }
    }

    /** A handler of the memory above vAddr + offset; nothing is free yet. */
    constructor (vAddr: nat, size: nat, offset: nat)
      requires offset <= size
      ensures Valid() && fresh(mBlocks) && free == {} && lists == EmptyLists()
      ensures this.vAddr == vAddr && this.offset == offset && availableMemory == size - offset
    {
      this.vAddr, this.offset, availableMemory := vAddr, offset, size - offset;
      mBlocks := new nat[MAX_ORDER + 1](_ => NULL);
      next, prev, lists, free := map[], map[], EmptyLists(), {};
      new;
      EmptyCanonical();
    }

    /** File the block that a loop over the n pages from p on cuts off next. */
    method FileChunk(mBlock: nat, order: nat, ghost p: nat, ghost n: nat,
                     ghost filed: set<nat>, ghost done: seq<seq<nat>>)
      requires Valid() && mBlock == PAGE_SIZE * p && n > 0 && order == ChunkOrder(p, n)
      requires Filing(lists, free, p, n, filed, done)
      modifies this, mBlocks
      ensures Valid() && Pow2(order) <= n
      ensures Filing(lists, free, p + Pow2(order), n - Pow2(order), filed, done)
    {
      ChunkReady(lists, free, p, n, order, filed, done);
      BlockInsertMerge(mBlock, order, p);
      free := free + PageRun(p, Pow2(order));
    }

    /** File all managed pages as the largest aligned blocks that fit. */
    method buddyInit()
      requires Valid() && free == {} && vAddr + offset > 0
      requires (vAddr + offset) % PAGE_SIZE == 0 && availableMemory % PAGE_SIZE == 0
      modifies this, mBlocks
      ensures Valid() && free == PageRun((vAddr + offset) / PAGE_SIZE, availableMemory / PAGE_SIZE)
      ensures lists == FreeRange(EmptyLists(), (vAddr + offset) / PAGE_SIZE, availableMemory / PAGE_SIZE)
    {
      var base := vAddr + offset;
      var end := base + availableMemory;
      ghost var p: nat, n: nat := base / PAGE_SIZE, availableMemory / PAGE_SIZE;
      ghost var filed, done := PageRun(p, n), FreeRange(EmptyLists(), p, n);
      EmptyCanonical();
      CanonicalUnique(lists, EmptyLists(), {});
      while base < end
        invariant Valid() && base == PAGE_SIZE * p && end == PAGE_SIZE * (p + n)
        invariant Filing(lists, free, p, n, filed, done)
        decreases n
      {
        var mblock := base;
        var order := GetOrder(base);
        ByteOrderOfPage(p);
        base := base + PAGE_SIZE * Pow2(order);
        while base > end
          invariant 0 <= order <= OrderOf(p) && base == mblock + PAGE_SIZE * Pow2(order)
          invariant order == OrderOf(p) || Pow2(order + 1) > n
          decreases order
        {
          order := order - 1;
          base := base - PAGE_SIZE * Pow2(order);
        }
        LargestChunk(p, n, order);
        FileChunk(mblock, order, p, n, filed, done);
        p, n := p + Pow2(order), n - Pow2(order);
      }
      FilingDone(lists, free, p, filed, done);
    }

    /** Insert top half of the block that was split (right buddy). */
    method FileRightHalf(addr: nat, size: nat, order: nat, ghost p: nat, ghost L: seq<seq<nat>>, ghost F: set<nat>)
      requires WellLinked() && order < MAX_ORDER && addr == PAGE_SIZE * p && p > 0 && size == PAGE_SIZE * Pow2(order)
      requires Canonical(L, F) && L[order] == [] && TakeFrom(L, order + 1) == Some(Taken(p, lists))
      modifies this`next, this`prev, this`lists, mBlocks
      ensures WellLinked() && TakeFrom(L, order) == Some(Taken(p, lists))
    {
      TakePages(L, F, order + 1);
      RightHalfReady(lists, F, p, order);
      TakeSplit(L, order);
      BlockInsert(addr + size, order, p + Pow2(order));
    }

    /** Allocate size bytes, a power-of-two number of pages up to MAX_ORDER. */
    method buddyGetMemory(size: nat) returns (addr: nat, ghost p: nat)
      requires Valid()
      requires size > 0 || mBlocks[0] != NULL  // a request of 0 bytes recurses for ever without a free page
      modifies this, mBlocks
      ensures Valid()
      ensures addr == NULL <==> RequestOrder(size).None? || !HasFree(old(free), RequestOrder(size).value)
      ensures addr == NULL ==> free == old(free) && lists == old(lists)
      ensures addr != NULL ==>
                var k := RequestOrder(size).value;
                && addr == PAGE_SIZE * p && Aligned(p, k)
                && PageRun(p, Pow2(k)) <= old(free) && free == old(free) - PageRun(p, Pow2(k))
                && TakeFrom(old(lists), k) == Some(Taken(p, lists))
      decreases PAGE_SIZE * Pow2(MAX_ORDER) + 1 - size
    {
      p := 0;
      if size > PAGE_SIZE * Pow2(MAX_ORDER) {
        TooLarge(size);
        return NULL, 0;
      }
      var order := GetOrder(size);
      if size != 0 && size != PAGE_SIZE * Pow2(order) {
        return NULL, 0;
      }
      HeadIsNull(lists, mBlocks[..], next, prev, order);
      ghost var L, F := lists, free;
      addr := BlockGet(order);
      if addr != NULL {
        p := L[order][0];
      } else {
        DoubleRequest(size, order);
        addr, p := buddyGetMemory(2 * size);
        if addr == NULL {
          NothingLarger(L, F, order);
          return NULL, 0;
        }
        FileRightHalf(addr, size, order, p, L, F);
      }
      TakePages(L, F, order);
      free := F - PageRun(p, Pow2(order));
    }

    /** Hand back a page range, in blocks as large as its alignment and its rest allow. */
    method buddyFreeMemory(memory: nat, size: nat)
      requires Valid() && memory > 0 && memory % PAGE_SIZE == 0 && size % PAGE_SIZE == 0
      requires free !! PageRun(memory / PAGE_SIZE, size / PAGE_SIZE)
      modifies this, mBlocks
      ensures Valid() && free == old(free) + PageRun(memory / PAGE_SIZE, size / PAGE_SIZE)
      ensures lists == Step(old(lists), Free(memory / PAGE_SIZE, size / PAGE_SIZE))
    {
      hide Filing, FreeRange, PageRun, Exp2, Log;
      var at, rest := memory, size;
      ghost var p: nat, n: nat := memory / PAGE_SIZE, size / PAGE_SIZE;
      ghost var filed, done := free + PageRun(p, n), FreeRange(lists, p, n);
      FilingStart(lists, free, p, n);
      while rest != 0
        invariant Valid() && at == PAGE_SIZE * p && rest == PAGE_SIZE * n
        invariant Filing(lists, free, p, n, filed, done)
        decreases n
      {
        var addrOrder := GetOrder(at);
        var sizeOrder := GetMaxOrder(rest);
        ByteOrderOfPage(p);
        var order := if sizeOrder >= addrOrder then addrOrder else sizeOrder;
        FileChunk(at, order, p, n, filed, done);
        rest := rest - PAGE_SIZE * Pow2(order);
        at := at + PAGE_SIZE * Pow2(order);
        p, n := p + Pow2(order), n - Pow2(order);
      }
      FilingDone(lists, free, p, filed, done);
    }

    /** A block that may be filed: page p starts an aligned block that no list holds. */
    ghost predicate NewBlock(mBlock: nat, p: nat, order: nat)
      reads this
    {
      mBlock == PAGE_SIZE * p && p > 0 && Aligned(p, order) && !Listed(lists, p)
    }
  }
}
