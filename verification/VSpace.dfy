/** A virtual space of memory/virtual/vmap.c with the page tables it maps to, and the registration of
    anonymous memory (memory/mmap.c, kernel/process.c) in one. */
module VSpace {
  import opened Utils
  import opened PageAccess
  import opened PageLookup
  import opened PageWrites
  import opened Mmu
  import opened VSpaceState
  import opened GetPages
  import WordBits

  class VSpace {
    const pgt: PageTables
    const base: nat
    const top: nat
    /** VMANAGER_STACK */
    const stack: bool
    var freePtr: nat
    var vPageList: seq<VPage>

    ghost predicate Filled()
      reads this
    {
      && base <= freePtr <= top
      && if stack then Tiles(vPageList, freePtr, top, stack) else Tiles(vPageList, base, freePtr, stack)
    }

    /** The pages that nothing is mapped to yet. */
    ghost function FreeFrom(): nat
      reads this
    {
      if stack then base else freePtr
    }

    ghost function FreePages(): int
      reads this
    {
      if stack then freePtr - base else top - freePtr
    }

    /** The sections fill the used part of the space and show their physical pages; the rest is unmapped. */
    ghost predicate Valid()
      reads this, pgt, pgt.pgt
    {
      && pgt.Valid() && top <= 256 * pgt.pgt.Length && Filled()
      && (forall i :: 0 <= i < |vPageList| ==> Placed(pgt.pgt[..], pgt.l2, vPageList[i]))
      && Unmapped(pgt.pgt[..], pgt.l2, FreeFrom(), FreePages())
    }

    /** vSpaceReserve: base is what the pool of the manager gave for so many pages. */
    constructor (pgt: PageTables, base: nat, pages: nat, stack: bool)
      requires pgt.Valid() && base + pages <= 256 * pgt.pgt.Length && Unmapped(pgt.pgt[..], pgt.l2, base, pages)
      ensures Valid() && this.pgt == pgt && this.base == base && top == base + pages && this.stack == stack
      ensures vPageList == [] && freePtr == if stack then top else base
    {
      this.pgt, this.base, top, this.stack := pgt, base, base + pages, stack;
      freePtr := if stack then base + pages else base;
      vPageList := [];
    }

    /** Map the pages of size bytes at pAddr; the old end of the space, or None if there is no room. */
    method vSpaceMapSection(pAddr: nat, size: nat, memCfg: MemCfg) returns (ret: Option<nat>)
      requires Valid() && CfgOk(memCfg) && pAddr % PAGE_SIZE == 0
      modifies this, pgt, pgt.pgt
      ensures Valid() && (ret.None? <==> old(FreePages()) < PageCount(size))
      ensures ret.None? ==> vPageList == old(vPageList) && freePtr == old(freePtr)
      ensures SameOutside(old(pgt.pgt[..]), old(pgt.l2), pgt.pgt[..], pgt.l2, base, top - base)
      ensures ret.Some? ==>
                MapsRange(old(pgt.pgt[..]), old(pgt.l2), pgt.pgt[..], pgt.l2,
                          if stack then freePtr else old(freePtr), PageCount(size), pAddr / PAGE_SIZE, Granted(memCfg))
      ensures ret.Some? ==>
                var n := PageCount(size);
                && ret == Some(old(freePtr)) && freePtr == (if stack then old(freePtr) - n else old(freePtr) + n)
                && vPageList == [VPage(if stack then freePtr else old(freePtr), n, pAddr / PAGE_SIZE, Granted(memCfg))]
                                + old(vPageList)
    {
      hide Unmapped, Placed, Tiles, MapsRange, SameOutside, Granted;
      var mapSize := PageCount(size + pAddr % PAGE_SIZE);
      OutsideNothing(pgt.pgt[..], pgt.l2, base, top - base);
      var vAddr, newFreePtr: nat;
      if stack {
        // Check if we have enough free space
        if freePtr - base < mapSize { return None; }
        newFreePtr := freePtr - mapSize;
        vAddr := newFreePtr;
      } else {
        // Check if we have enough free space
        if top - freePtr < mapSize { return None; }
        newFreePtr := freePtr + mapSize;
        vAddr := freePtr;
      }
      ret := Some(freePtr);
      AddSection(pAddr, vAddr, newFreePtr, mapSize, memCfg);
    }

    /** Map a section of n pages for which there is room, and put it before the others. */
    method AddSection(pAddr: nat, vAddr: nat, newFreePtr: nat, n: nat, memCfg: MemCfg)
      requires Valid() && CfgOk(memCfg) && pAddr % PAGE_SIZE == 0 && n <= FreePages()
      requires newFreePtr == (if stack then freePtr - n else freePtr + n)
               && vAddr == if stack then newFreePtr else freePtr
      modifies this, pgt, pgt.pgt
      ensures Valid() && freePtr == newFreePtr
      ensures vPageList == [VPage(vAddr, n, pAddr / PAGE_SIZE, Granted(memCfg))] + old(vPageList)
      ensures MapsRange(old(pgt.pgt[..]), old(pgt.l2), pgt.pgt[..], pgt.l2, vAddr, n, pAddr / PAGE_SIZE,
                        Granted(memCfg))
      ensures SameOutside(old(pgt.pgt[..]), old(pgt.l2), pgt.pgt[..], pgt.l2, base, top - base)
    {
      hide Unmapped, Placed, Tiles, MapsRange, KeepsTables, EdgesAreTables, SameOutside, Granted;
      ghost var l1: seq<nat>, l2 := pgt.pgt[..], pgt.l2;
      ghost var e := VPage(vAddr, n, pAddr / PAGE_SIZE, Granted(memCfg));
      ghost var from, rest := if stack then base else newFreePtr, FreePages() - n;
      UnmappedPart(l1, l2, FreeFrom(), FreePages(), vAddr, n);
      UnmappedPart(l1, l2, FreeFrom(), FreePages(), from, rest);
      TilesWithin(vPageList, if stack then freePtr else base, if stack then top else freePtr, stack);
      TilesMore(vPageList, if stack then freePtr else base, if stack then top else freePtr, stack, e);
      vPageMap(pAddr, vAddr, n, memCfg);
      forall i | 0 <= i < |vPageList|
        ensures Placed(pgt.pgt[..], pgt.l2, vPageList[i])
      {
        PlacedMapped(l1, l2, pgt.pgt[..], pgt.l2, vAddr, n, pAddr / PAGE_SIZE, vPageList[i], Granted(memCfg));
      }
      PlacedMapped(l1, l2, pgt.pgt[..], pgt.l2, vAddr, n, pAddr / PAGE_SIZE, e, Granted(memCfg));
      OutsideMapped(l1, l2, pgt.pgt[..], pgt.l2, vAddr, n, pAddr / PAGE_SIZE, base, top - base, Granted(memCfg));
      UnmappedStays(l1, l2, pgt.pgt[..], pgt.l2, vAddr, n, pAddr / PAGE_SIZE, from, rest, Granted(memCfg));
      freePtr := newFreePtr;
      vPageList := [VPage(vAddr, n, pAddr / PAGE_SIZE, Granted(memCfg))] + vPageList;
    }

    /** vPageMap of whole pages: n pages from page vAddr on. */
    method vPageMap(pAddr: nat, vAddr: nat, n: nat, memCfg: MemCfg)
      requires pgt.Valid() && CfgOk(memCfg) && pAddr % PAGE_SIZE == 0 && vAddr + n <= 256 * pgt.pgt.Length
      requires Unmapped(pgt.pgt[..], pgt.l2, vAddr, n)
      modifies pgt, pgt.pgt
      ensures pgt.Valid() && MapsRange(old(pgt.pgt[..]), old(pgt.l2), pgt.pgt[..], pgt.l2, vAddr, n,
                                       pAddr / PAGE_SIZE, Granted(memCfg))
      ensures KeepsTables(old(pgt.pgt[..]), pgt.pgt[..], vAddr, n) && EdgesAreTables(pgt.pgt[..], vAddr, n)
    {
      Rounded(n, 0);
      InPages(PAGE_SIZE * vAddr, vAddr);
      PageMultiple(vAddr);
      pgt.MemoryMap(pAddr, PAGE_SIZE * vAddr, n * PAGE_SIZE, memCfg);
    }

    /** vPageUnmap. */
    method vPageUnmap(vPage: VPage)
      requires pgt.Valid() && vPage.vAddr + vPage.size <= 256 * pgt.pgt.Length
      requires EdgesAreTables(pgt.pgt[..], vPage.vAddr, vPage.size)
      modifies pgt, pgt.pgt
      ensures pgt.Valid() && UnmapsRange(old(pgt.pgt[..]), old(pgt.l2), pgt.pgt[..], pgt.l2, vPage.vAddr, vPage.size)
      ensures KeepsTables(old(pgt.pgt[..]), pgt.pgt[..], vPage.vAddr, vPage.size)
    {
      UnmapPages(vPage.vAddr, vPage.size);
    }

    /** MemoryUnmap of n whole pages from page p on. */
    method UnmapPages(p: nat, n: nat)
      requires pgt.Valid() && p + n <= 256 * pgt.pgt.Length && EdgesAreTables(pgt.pgt[..], p, n)
      modifies pgt, pgt.pgt
      ensures pgt.Valid() && UnmapsRange(old(pgt.pgt[..]), old(pgt.l2), pgt.pgt[..], pgt.l2, p, n)
      ensures KeepsTables(old(pgt.pgt[..]), pgt.pgt[..], p, n)
    {
      Rounded(n, 0);
      InPages(PAGE_SIZE * p, p);
      EdgesAreParts(pgt.pgt[..], p, n, n * PAGE_SIZE);
      pgt.MemoryUnmap(PAGE_SIZE * p, n * PAGE_SIZE);
    }

    /** The latest section goes. */
    method PopSection()
      requires Valid() && vPageList != []
      modifies this, pgt, pgt.pgt
      ensures Valid() && vPageList == old(vPageList)[1..]
      ensures freePtr == if stack then old(freePtr) + old(vPageList)[0].size else old(freePtr) - old(vPageList)[0].size
      ensures UnmapsRange(old(pgt.pgt[..]), old(pgt.l2), pgt.pgt[..], pgt.l2, old(vPageList)[0].vAddr,
                          old(vPageList)[0].size)
      ensures KeepsTables(old(pgt.pgt[..]), pgt.pgt[..], old(vPageList)[0].vAddr, old(vPageList)[0].size)
      ensures base <= old(vPageList)[0].vAddr && old(vPageList)[0].vAddr + old(vPageList)[0].size <= top
      ensures old(vPageList)[0].vAddr == if stack then old(freePtr) else freePtr
    {
      hide Unmapped, UnmapsRange, KeepsTables, Shows, EdgesAreTables;
      var vPage := vPageList[0];
      ghost var l1: seq<nat>, l2, list := pgt.pgt[..], pgt.l2, vPageList;
      TilesWithin(vPageList, if stack then freePtr else base, if stack then top else freePtr, stack);
      freePtr := if stack then freePtr + vPage.size else freePtr - vPage.size;
      vPageList := vPageList[1..];
      vPageUnmap(vPage);
      forall i | 0 <= i < |vPageList|
        ensures Placed(pgt.pgt[..], pgt.l2, vPageList[i])
      {
        assert vPageList[i] == list[i + 1];
        PlacedUnmapped(l1, l2, pgt.pgt[..], pgt.l2, vPage.vAddr, vPage.size, list[i + 1]);
      }
      UnmappedBoth(l1, l2, pgt.pgt[..], pgt.l2, vPage.vAddr, vPage.size, old(FreeFrom()), old(FreePages()));
    }

    /** How far the end of the space has moved back from a place. */
    ghost function Moved(from: nat): int
      reads this
    {
      if stack then freePtr - from else from - freePtr
    }

    /** One more section goes, behind those that went since the space ended at from. */
    method PopMore(ghost l1: seq<nat>, ghost l2: map<nat, seq<nat>>, ghost from: nat)
      requires Valid() && vPageList != [] && Moved(from) >= 0
      requires UnmapsRange(l1, l2, pgt.pgt[..], pgt.l2, if stack then from else freePtr, Moved(from))
      modifies this, pgt, pgt.pgt
      ensures Valid() && vPageList == old(vPageList)[1..]
      ensures Moved(from) == old(Moved(from)) + old(vPageList)[0].size
      ensures UnmapsRange(l1, l2, pgt.pgt[..], pgt.l2, if stack then from else freePtr, Moved(from))
    {
      hide Unmapped, UnmapsRange, KeepsTables, Placed, Tiles;
      ghost var l1': seq<nat>, l2', at, n: nat := pgt.pgt[..], pgt.l2, freePtr, vPageList[0].size;
      PopSection();
      if stack {
        UnmapsRangeJoin(l1, l2, l1', l2', pgt.pgt[..], pgt.l2, from, at - from, n);
      } else {
        UnmapsRangeBefore(l1, l2, l1', l2', pgt.pgt[..], pgt.l2, freePtr, n, from - at);
      }
    }

    /** Unmap the latest sections of size bytes, as far as they end there; the new end, or None if the next
        section is larger than what is left. */
    method vSpaceUnmapSection(size: nat) returns (ret: Option<nat>)
      requires Valid()
      modifies this, pgt, pgt.pgt
      ensures Valid() && vPageList == old(vPageList)[Pops(old(vPageList), PageCount(size))..]
      ensures ret == if PopsLeft(old(vPageList), PageCount(size)) == 0 || vPageList == [] then Some(freePtr) else None
      ensures Moved(old(freePtr)) == PageCount(size) - PopsLeft(old(vPageList), PageCount(size)) >= 0
      ensures UnmapsRange(old(pgt.pgt[..]), old(pgt.l2), pgt.pgt[..], pgt.l2,
                          if stack then old(freePtr) else freePtr, Moved(old(freePtr)))
    {
      hide Unmapped, UnmapsRange, KeepsTables, Placed, Tiles, Pops, PopsLeft;
      var unmapSize: nat := PageCount(size);
      ghost var list, k := vPageList, 0;
      UnmapsNothing(pgt.pgt[..], pgt.l2, freePtr);
      assert list[0..] == list;
      while unmapSize != 0 && vPageList != []
        invariant Valid() && k <= |list| && vPageList == list[k..]
        invariant Pops(list, PageCount(size)) == k + Pops(vPageList, unmapSize)
        invariant PopsLeft(list, PageCount(size)) == PopsLeft(vPageList, unmapSize)
        invariant Moved(old(freePtr)) == PageCount(size) - unmapSize >= 0
        invariant UnmapsRange(old(pgt.pgt[..]), old(pgt.l2), pgt.pgt[..], pgt.l2,
                              if stack then old(freePtr) else freePtr, Moved(old(freePtr)))
        decreases |vPageList|
      {
        PopsStep(vPageList, unmapSize);
        if vPageList[0].size > unmapSize {
          return None;
        }
        unmapSize := unmapSize - vPageList[0].size;
        PopMore(old(pgt.pgt[..]), old(pgt.l2), old(freePtr));
        k := k + 1;
        assert list[k - 1..][1..] == list[k..];
      }
      PopsEnd(vPageList, unmapSize);
      return Some(freePtr);
    }

    /** Unmapping the section that was just mapped leaves the space and every translation as before, unless
        it is empty: then the section stays. */
    method MapThenUnmapSection(pAddr: nat, size: nat, memCfg: MemCfg)
      requires Valid() && CfgOk(memCfg) && pAddr % PAGE_SIZE == 0 && PageCount(size) <= FreePages()
      modifies this, pgt, pgt.pgt
      ensures Valid() && freePtr == old(freePtr) && SameLookups(old(pgt.pgt[..]), old(pgt.l2), pgt.pgt[..], pgt.l2)
      ensures vPageList == old(vPageList) <==> size > 0
    {
      hide Unmapped, UnmapsRange, MapsRange, Placed, Tiles, SameOutside, SameLookups, Granted, Pops, PopsLeft;
      ghost var l1: seq<nat>, l2, n := pgt.pgt[..], pgt.l2, PageCount(size);
      ghost var p := if stack then freePtr - n else freePtr;
      UnmappedPart(l1, l2, FreeFrom(), FreePages(), p, n);
      var ret := vSpaceMapSection(pAddr, size, memCfg);
      ghost var l1': seq<nat>, l2', list := pgt.pgt[..], pgt.l2, vPageList;
      PopsFirst(list[0], old(vPageList), n);
      ret := vSpaceUnmapSection(size);
      UnmapUndoesMap(l1, l2, l1', l2', pgt.pgt[..], pgt.l2, p, n, pAddr / PAGE_SIZE, Granted(memCfg));
      assert list[1..] == old(vPageList) && list[0..] == list;
    }

    /** The latest section goes, and nothing outside the space notices. */
    method PopInside(ghost was: seq<nat>, ghost was2: map<nat, seq<nat>>)
      requires Valid() && vPageList != [] && EdgesAreTables(pgt.pgt[..], base, top - base)
      requires SameOutside(was, was2, pgt.pgt[..], pgt.l2, base, top - base)
      modifies this, pgt, pgt.pgt
      ensures Valid() && vPageList == old(vPageList)[1..] && EdgesAreTables(pgt.pgt[..], base, top - base)
      ensures SameOutside(was, was2, pgt.pgt[..], pgt.l2, base, top - base)
    {
      hide Unmapped, UnmapsRange, KeepsTables, Placed, SameOutside, EdgesAreTables, Tiles;
      ghost var l1: seq<nat>, l2, e := pgt.pgt[..], pgt.l2, vPageList[0];
      PopSection();
      EdgesKeptWithin(l1, pgt.pgt[..], e.vAddr, e.size, base, top - base);
      OutsideUnmapped(l1, l2, pgt.pgt[..], pgt.l2, e.vAddr, e.size, base, top - base);
      OutsideJoin(was, was2, l1, l2, pgt.pgt[..], pgt.l2, base, top - base);
    }

    /** Unmap all sections. */
    method PopAll()
      requires Valid() && EdgesAreTables(pgt.pgt[..], base, top - base)
      modifies this, pgt, pgt.pgt
      ensures Valid() && vPageList == [] && EdgesAreTables(pgt.pgt[..], base, top - base)
      ensures SameOutside(old(pgt.pgt[..]), old(pgt.l2), pgt.pgt[..], pgt.l2, base, top - base)
    {
      hide Unmapped, Placed, SameOutside, EdgesAreTables, Tiles;
      ghost var was: seq<nat>, was2 := pgt.pgt[..], pgt.l2;
      OutsideNothing(pgt.pgt[..], pgt.l2, base, top - base);
      while vPageList != []
        invariant Valid() && EdgesAreTables(pgt.pgt[..], base, top - base)
        invariant SameOutside(was, was2, pgt.pgt[..], pgt.l2, base, top - base)
        decreases |vPageList|
      {
        PopInside(was, was2);
      }
    }

    /** Make sure we clean all entries in the L1 page table. */
    method ClearRange(ghost was: seq<nat>, ghost was2: map<nat, seq<nat>>)
      requires pgt.Valid() && base <= top <= 256 * pgt.pgt.Length && EdgesAreTables(pgt.pgt[..], base, top - base)
      requires SameOutside(was, was2, pgt.pgt[..], pgt.l2, base, top - base)
      modifies pgt, pgt.pgt
      ensures pgt.Valid() && Unmapped(pgt.pgt[..], pgt.l2, base, top - base)
      ensures SameOutside(was, was2, pgt.pgt[..], pgt.l2, base, top - base)
    {
      hide Unmapped, UnmapsRange, SameOutside, EdgesAreTables;
      ghost var l1: seq<nat>, l2 := pgt.pgt[..], pgt.l2;
      UnmapPages(base, top - base);
      OutsideUnmapped(l1, l2, pgt.pgt[..], pgt.l2, base, top - base, base, top - base);
      OutsideJoin(was, was2, l1, l2, pgt.pgt[..], pgt.l2, base, top - base);
      UnmappedNow(l1, l2, pgt.pgt[..], pgt.l2, base, top - base);
    }

    /** A space without sections, all of it unmapped. */
    lemma NowEmpty()
      requires pgt.Valid() && base <= top <= 256 * pgt.pgt.Length && Unmapped(pgt.pgt[..], pgt.l2, base, top - base)
      requires vPageList == [] && freePtr == if stack then top else base
      ensures Valid()
    {
      hide Unmapped, Placed;
      TilesNothing(freePtr, stack);
    }

    /** Unmap all sections and the whole range, whose edges must be tables. */
    method vSpaceUnmap()
      requires Valid() && EdgesAreTables(pgt.pgt[..], base, top - base)
      modifies this, pgt, pgt.pgt
      ensures Valid() && vPageList == [] && freePtr == if stack then top else base
      ensures Unmapped(pgt.pgt[..], pgt.l2, base, top - base)
      ensures SameOutside(old(pgt.pgt[..]), old(pgt.l2), pgt.pgt[..], pgt.l2, base, top - base)
    {
      hide Unmapped, Placed, SameOutside, EdgesAreTables, Tiles, UnmapsRange, KeepsTables;
      ghost var was: seq<nat>, was2 := pgt.pgt[..], pgt.l2;
      PopAll();
      freePtr := if stack then top else base;
      ClearRange(was, was2);
      NowEmpty();
    }

    /** Every page of a full space is mapped to its place in one of the sections. */
    lemma PageMapped(m: nat, s: nat) returns (i: nat)
      requires Valid() && s < L2_ENTRIES && base <= 256 * m + s < top && freePtr == if stack then base else top
      ensures i < |vPageList| && vPageList[i].vAddr <= 256 * m + s < vPageList[i].vAddr + vPageList[i].size
      ensures var e := vPageList[i];
              Lookup(pgt.pgt[..], pgt.l2, m, s) == Some(Page(e.pAddr + (256 * m + s - e.vAddr), e.access))
    {
      i := TilesCover(vPageList, base, top, stack, 256 * m + s);
      assert Placed(pgt.pgt[..], pgt.l2, vPageList[i]);
    }

    /** Map the parts of some memory in turn: they fill the space exactly. */
    method RegisterPrivMemory(memory: seq<Mbv>, memCfg: MemCfg)
      requires Valid() && CfgOk(memCfg) && !stack && vPageList == []
      requires forall i :: 0 <= i < |memory| ==> memory[i].data % PAGE_SIZE == 0 && memory[i].size % PAGE_SIZE == 0
      requires Total(Sizes(memory)) == PAGE_SIZE * (top - base)
      modifies this, pgt, pgt.pgt
      ensures Valid() && freePtr == top && Tiles(vPageList, base, top, false)
      ensures |vPageList| == |memory| && Parts(vPageList, memory, base, Granted(memCfg))
      ensures SameOutside(old(pgt.pgt[..]), old(pgt.l2), pgt.pgt[..], pgt.l2, base, top - base)
    {
      hide Parts, PartOf, Total, Sizes, Tiles, Placed, Unmapped, SameOutside, Granted;
      OutsideNothing(pgt.pgt[..], pgt.l2, base, top - base);
      var i := 0;
      ghost var sizes := Sizes(memory);
      Start(vPageList, base, freePtr, memory, Granted(memCfg));
      while i < |memory|
        invariant Valid() && i <= |memory| && |vPageList| == i
        invariant PAGE_SIZE * (freePtr - base) == Total(sizes[..i]) && Parts(vPageList, memory, base, Granted(memCfg))
        invariant SameOutside(old(pgt.pgt[..]), old(pgt.l2), pgt.pgt[..], pgt.l2, base, top - base)
      {
        ghost var list, v := vPageList, freePtr;
        ghost var n, l1: seq<nat>, l2 := PageCount(memory[i].size), pgt.pgt[..], pgt.l2;
        TotalPrefix(sizes, i);
        SizeAt(memory, i);
        WholePages(memory[i].size);
        WholePages(memory[i].data);
        Room(top - freePtr, n, top - base, freePtr - base);
        var ret := vSpaceMapSection(memory[i].data, memory[i].size, memCfg);
        OutsideJoin(old(pgt.pgt[..]), old(pgt.l2), l1, l2, pgt.pgt[..], pgt.l2, base, top - base);
        PartsMore(list, VPage(v, n, memory[i].data / PAGE_SIZE, Granted(memCfg)), memory, base, Granted(memCfg));
        i := i + 1;
      }
      assert sizes[..i] == sizes;
    }
  }

  /** An anonymous mapping of size bytes from page base on: memory of GetPages, all of it in one space. */
  method MapAnonymous(pgt: PageTables, base: nat, size: nat, memory: nat -> nat, memCfg: MemCfg)
    returns (vspace: VSpace, mbv: seq<Mbv>)
    requires pgt.Valid() && CfgOk(memCfg) && size + PAGE_SIZE <= WordBits.WORD
    requires base + PageCount(size) <= 256 * pgt.pgt.Length && Unmapped(pgt.pgt[..], pgt.l2, base, PageCount(size))
    requires forall j :: memory(j) % PAGE_SIZE == 0
    modifies pgt, pgt.pgt
    ensures vspace.Valid() && vspace.pgt == pgt && vspace.base == base && vspace.top == base + PageCount(size)
    ensures !vspace.stack && vspace.freePtr == vspace.top && fresh(vspace)
    ensures SameOutside(old(pgt.pgt[..]), old(pgt.l2), pgt.pgt[..], pgt.l2, base, PageCount(size))
    ensures Tiles(vspace.vPageList, base, base + PageCount(size), false)
            && Parts(vspace.vPageList, mbv, base, Granted(memCfg))
    ensures |vspace.vPageList| == |mbv| <= 32 && Binary(Sizes(mbv))
    ensures forall j :: 0 <= j < |mbv| ==> mbv[j].data == memory(j)
  {
    hide Unmapped, Placed, Tiles, Parts, Total, SameOutside;
    mbv := GetPages.GetPages(size, memory);
    WholeParts(mbv);
    SameRounding(size);
    vspace := new VSpace(pgt, base, PageCount(size), false);
    vspace.RegisterPrivMemory(mbv, memCfg);
  }

  /** Giving an anonymous mapping back leaves every translation as it was before. */
  method MapThenRelease(pgt: PageTables, base: nat, size: nat, memory: nat -> nat, memCfg: MemCfg)
    requires pgt.Valid() && CfgOk(memCfg) && size + PAGE_SIZE <= WordBits.WORD
    requires base + PageCount(size) <= 256 * pgt.pgt.Length && Unmapped(pgt.pgt[..], pgt.l2, base, PageCount(size))
    requires forall j :: memory(j) % PAGE_SIZE == 0
    modifies pgt, pgt.pgt
    ensures pgt.Valid() && SameLookups(old(pgt.pgt[..]), old(pgt.l2), pgt.pgt[..], pgt.l2)
  {
    hide Unmapped, Placed, Tiles, Parts, SameOutside, EdgesAreTables, SameLookups;
    var vspace, mbv := MapAnonymous(pgt, base, size, memory, memCfg);
    ghost var l1: seq<nat>, l2 := pgt.pgt[..], pgt.l2;
    FullEdges(l1, l2, vspace.vPageList, base, base + PageCount(size), false);
    vspace.vSpaceUnmap();
    OutsideJoin(old(pgt.pgt[..]), old(pgt.l2), l1, l2, pgt.pgt[..], pgt.l2, base, PageCount(size));
    OutsideRestored(old(pgt.pgt[..]), old(pgt.l2), pgt.pgt[..], pgt.l2, base, PageCount(size));
  }

  lemma WholeParts(mbv: seq<Mbv>)
    requires Binary(Sizes(mbv))
    ensures forall i :: 0 <= i < |mbv| ==> mbv[i].size % PAGE_SIZE == 0
  {
    forall i | 0 <= i < |mbv|
      ensures mbv[i].size % PAGE_SIZE == 0
    {
      assert Sizes(mbv)[i] == mbv[i].size;
    }
  }

  lemma SameRounding(size: nat)
    ensures RoundUpPage(size) == PAGE_SIZE * PageCount(size)
  {
  }

  /** Section e holds part k of some memory, with access g. */
  ghost predicate PartOf(e: VPage, memory: seq<Mbv>, k: nat, base: nat, g: Access) {
    && k < |memory| && e.size * PAGE_SIZE == memory[k].size && e.pAddr * PAGE_SIZE == memory[k].data
    && e.vAddr * PAGE_SIZE == base * PAGE_SIZE + Total(Sizes(memory)[..k]) && e.access == g
  }

  /** The sections, the latest first, hold the parts of some memory one behind the other. */
  ghost predicate Parts(list: seq<VPage>, memory: seq<Mbv>, base: nat, g: Access) {
    forall j :: 0 <= j < |list| ==> PartOf(list[j], memory, |list| - 1 - j, base, g)
  }

  lemma PartsMore(list: seq<VPage>, e: VPage, memory: seq<Mbv>, base: nat, g: Access)
    requires Parts(list, memory, base, g) && |list| < |memory| && e.access == g
    requires e.size * PAGE_SIZE == memory[|list|].size && e.pAddr * PAGE_SIZE == memory[|list|].data
    requires PAGE_SIZE * (e.vAddr - base) == Total(Sizes(memory)[..|list|])
    ensures Parts([e] + list, memory, base, g)
  {
    hide Total;
    var r := [e] + list;
    forall j | 0 <= j < |r|
      ensures PartOf(r[j], memory, |r| - 1 - j, base, g)
    {
      if j > 0 { assert r[j] == list[j - 1] && PartOf(list[j - 1], memory, |list| - 1 - (j - 1), base, g); }
    }
  }

  lemma SizeAt(memory: seq<Mbv>, i: nat)
    requires i < |memory|
    ensures |Sizes(memory)| == |memory| && Sizes(memory)[i] == memory[i].size
  {
  }

  lemma Start(list: seq<VPage>, lo: nat, hi: nat, memory: seq<Mbv>, g: Access)
    requires list == [] && Tiles(list, lo, hi, false)
    ensures lo == hi && Parts(list, memory, lo, g) && |Sizes(memory)| == |memory| && Total(Sizes(memory)[..0]) == 0
  {
  }

  lemma PageMultiple(v: nat)
    ensures PAGE_SIZE * v % PAGE_SIZE == 0
  {
  }

  /** The part of a total that comes first, and what comes next, fit the total. */
  lemma {:induction false} TotalPrefix(sizes: seq<nat>, i: nat)
    requires i < |sizes|
    ensures Total(sizes[..i]) + sizes[i] == Total(sizes[..i + 1]) <= Total(sizes)
    decreases |sizes| - i
  {
    assert sizes[..i + 1] == sizes[..i] + [sizes[i]];
    TotalMore(sizes[..i], sizes[i]);
    if i + 1 < |sizes| {
      TotalPrefix(sizes, i + 1);
    } else {
      assert sizes[..i + 1] == sizes;
    }
  }

  lemma Room(left: int, n: nat, all: int, used: int)
    requires PAGE_SIZE * used + PAGE_SIZE * n <= PAGE_SIZE * all && left == all - used
    ensures n <= left
  {
  }
}
