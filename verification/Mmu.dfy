/** The page tables of arch/arm/mmu.c. */
module Mmu {
  import opened Utils
  import opened Arith
  import opened PageAccess
  import opened PageLookup
  import opened PageWrites
  import opened L2Tables

  class PageTables {
    /** The first-level table. */
    const pgt: array<nat>
    /** The words of the second-level tables, by table address. */
    var l2: map<nat, seq<nat>>
    /** l2Allocator.top. */
    var top: nat
    /** The pages that MemoryGet hands out, in turn, and how many it has. */
    const supply: nat -> nat
    var handed: nat
    ghost var free: seq<nat>

    ghost predicate Valid()
      reads this, pgt
    {
      TablesInv(pgt[..], l2, top, free, supply, handed)
    }

    /** An empty first-level table, no second-level tables, and a memory manager that has handed out nothing. */
    constructor (entries: nat, supply: nat -> nat)
      requires SupplyOk(supply)
      ensures Valid() && fresh(pgt) && pgt.Length == entries && this.supply == supply
      ensures Unmapped(pgt[..], l2, 0, 256 * entries)
    {
      pgt := new nat[entries](_ => 0);
      l2, top, free, handed := map[], NULL, [], 0;
      this.supply := supply;
    }

    method MemoryGet() returns (page: nat)
      modifies this`handed
      ensures page == supply(old(handed)) && handed == old(handed) + 1
    {
      page := supply(handed);
      handed := handed + 1;
    }

    /** Get a page, clean it and link the four tables in it. */
    method NewPage()
      modifies this`top, this`handed, this`l2
      ensures top == supply(old(handed)) && handed == old(handed) + 1 && l2 == old(l2) + NewTables(top)
    {
      top := MemoryGet();
      // Ensure memory for page tables are clean
      l2 := l2 + Linking(top, 0);
      var ptr: nat := top;
      var i := 0;
      while i < 3
        invariant i <= 3 && ptr == Quarter(top, i) && l2 == old(l2) + Linking(top, i)
        invariant top == supply(old(handed)) && handed == old(handed) + 1
      {
        LinkingStep(old(l2), top, i);
        SetLink(NULL, ptr + L2PGT_SIZE);
        l2 := l2[ptr := SetWord(l2[ptr], 0, ptr + L2PGT_SIZE)];
        ptr := l2[ptr][0];
        i := i + 1;
      }
      SetLink(NULL, NULL);
      l2 := l2[ptr := SetWord(l2[ptr], 0, NULL)];
      assert l2 == old(l2) + NewTables(top);
    }

    /** A second-level table whose words are all zero, attached nowhere. */
    method L2PageTableAlloc() returns (t: nat)
      requires Valid()
      modifies this
      ensures Valid() && t in l2 && l2[t] == Blank(0) && t % L2PGT_SIZE == 0 && t !in free
      ensures forall m :: 0 <= m < pgt.Length && IsTable(pgt[m]) ==> TableOf(pgt[m]) != t
      ensures SameLookups(old(pgt[..]), old(l2), pgt[..], l2)
      ensures forall u :: u in old(l2) ==> u in l2
    {
      if top == NULL {
        NullTop(top, free, l2);
        NewTablesInv(pgt[..], l2, supply, handed);
        NewPage();
        free := Quarters(top);
      }
      ghost var before := l2;
      t := TakeTable();
      SameLookupsJoin(pgt[..], old(l2), pgt[..], before, pgt[..], l2);
    }

    /** Take the first of the free tables. */
    method TakeTable() returns (t: nat)
      requires Valid() && free != []
      modifies this`l2, this`top, this`free
      ensures Valid() && t in l2 && l2[t] == Blank(0) && t % L2PGT_SIZE == 0 && t !in free
      ensures forall m :: 0 <= m < pgt.Length && IsTable(pgt[m]) ==> TableOf(pgt[m]) != t
      ensures SameLookups(pgt[..], old(l2), pgt[..], l2)
      ensures l2.Keys == old(l2).Keys
    {
      t := top;
      PopTable(pgt[..], l2, top, free, supply, handed);
      SetLink(l2[top][0], 0);
      top := if l2[top][0] != NULL then l2[top][0] else NULL;
      l2 := l2[t := SetWord(l2[t], 0, 0)];
      free := free[1..];
    }

    /** Clear the table and put it before the free ones. */
    method L2PageTableDealloc(t: nat)
      requires t in l2 && |l2[t]| == L2_ENTRIES
      modifies this`l2, this`top
      ensures l2 == old(l2)[t := Blank(old(top))] && top == t
    {
      l2 := l2[t := Blank(0)];
      if top != NULL {
        l2 := l2[t := SetWord(l2[t], 0, top)];
      }
      SetLink(0, old(top));
      top := t;
    }

    method mmuAttachL2pgt(l2pgt: nat, v_addr: nat)
      requires v_addr / SECTION_SIZE < pgt.Length
      modifies pgt
      ensures pgt[..] == old(pgt[..])[v_addr / SECTION_SIZE := l2pgt / L2PGT_SIZE * L2PGT_SIZE + L2_PGT]
    {
      pgt[v_addr / SECTION_SIZE] := l2pgt / L2PGT_SIZE * L2PGT_SIZE + L2_PGT;
    }

    method mmu_16M_page_map(p_addr: nat, v_addr: nat, size: nat, flags: nat)
      requires v_addr / SECTION_SIZE + 16 * size <= pgt.Length
      modifies pgt
      ensures WritesSuperSections(old(pgt[..]), pgt[..], v_addr / SECTION_SIZE, size, p_addr / LARGE_SECTION_SIZE,
                                  flags)
    {
      var pte := flags + p_addr / LARGE_SECTION_SIZE * LARGE_SECTION_SIZE;
      ghost var x := p_addr / LARGE_SECTION_SIZE;
      var at, i := v_addr / SECTION_SIZE, 0;
      ghost var m := at;
      while i < size
        invariant i <= size && at == m + 16 * i
        invariant WritesSuperSections(old(pgt[..]), pgt[..], m, i, x, flags)
      {
        var j := 0;
        while j < 16
          invariant j <= 16 && at == m + 16 * i + j
          invariant forall k :: 0 <= k < pgt.Length ==>
                      pgt[k] == if m <= k < at then (x + (k - m) / 16) * LARGE_SECTION_SIZE + flags else old(pgt[k])
        {
          pgt[at] := pte + i * LARGE_SECTION_SIZE;
          at := at + 1;
          j := j + 1;
        }
        i := i + 1;
      }
    }

    method mmu_1M_page_map(p_addr: nat, v_addr: nat, size: nat, flags: nat)
      requires v_addr / SECTION_SIZE + size <= pgt.Length
      modifies pgt
      ensures WritesSections(old(pgt[..]), pgt[..], v_addr / SECTION_SIZE, size, p_addr / SECTION_SIZE, flags)
    {
      var pte := flags + p_addr / SECTION_SIZE * SECTION_SIZE;
      var at, i := v_addr / SECTION_SIZE, 0;
      while i < size
        invariant i <= size && at == v_addr / SECTION_SIZE + i
        invariant WritesSections(old(pgt[..]), pgt[..], v_addr / SECTION_SIZE, i, p_addr / SECTION_SIZE, flags)
      {
        pgt[at] := pte + i * SECTION_SIZE;
        at := at + 1;
        i := i + 1;
      }
    }

    method mmu_64K_page_map(l2pgt: nat, p_addr: nat, v_addr: nat, size: nat, flags: nat)
      requires l2pgt in l2 && |l2[l2pgt]| == L2_ENTRIES
      requires v_addr / PAGE_SIZE % 256 + 16 * size <= L2_ENTRIES
      modifies this`l2
      ensures l2pgt in l2 && l2 == old(l2)[l2pgt := l2[l2pgt]]
      ensures WritesLargePages(old(l2[l2pgt]), l2[l2pgt], v_addr / PAGE_SIZE % 256, size, p_addr / LARGE_PAGE_SIZE,
                               flags)
    {
      var pte := flags + p_addr / LARGE_PAGE_SIZE * LARGE_PAGE_SIZE;
      ghost var x, w := p_addr / LARGE_PAGE_SIZE, l2[l2pgt];
      var at: nat, i := v_addr / PAGE_SIZE % 256, 0;
      ghost var k := at;
      while i < size
        invariant i <= size && at == k + 16 * i
        invariant l2pgt in l2 && l2 == old(l2)[l2pgt := l2[l2pgt]]
        invariant WritesLargePages(w, l2[l2pgt], k, i, x, flags)
      {
        var j := 0;
        while j < 16
          invariant j <= 16 && at == k + 16 * i + j
          invariant l2pgt in l2 && l2 == old(l2)[l2pgt := l2[l2pgt]] && |l2[l2pgt]| == L2_ENTRIES
          invariant forall h :: 0 <= h < L2_ENTRIES ==>
                      l2[l2pgt][h] == if k <= h < at then (x + (h - k) / 16) * LARGE_PAGE_SIZE + flags else w[h]
        {
          l2 := l2[l2pgt := SetWord(l2[l2pgt], at, pte + i * LARGE_PAGE_SIZE)];
          at := at + 1;
          j := j + 1;
        }
        i := i + 1;
      }
    }

    method mmu_4K_page_map(l2pgt: nat, p_addr: nat, v_addr: nat, size: nat, flags: nat)
      requires l2pgt in l2 && |l2[l2pgt]| == L2_ENTRIES
      requires v_addr / PAGE_SIZE % 256 + size <= L2_ENTRIES
      modifies this`l2
      ensures l2pgt in l2 && l2 == old(l2)[l2pgt := l2[l2pgt]]
      ensures WritesSmallPages(old(l2[l2pgt]), l2[l2pgt], v_addr / PAGE_SIZE % 256, size, p_addr / PAGE_SIZE, flags)
    {
      var pte := flags + p_addr / PAGE_SIZE * PAGE_SIZE;
      ghost var x, w := p_addr / PAGE_SIZE, l2[l2pgt];
      var at: nat, i := v_addr / PAGE_SIZE % 256, 0;
      ghost var k := at;
      while i < size
        invariant i <= size && at == k + i
        invariant l2pgt in l2 && l2 == old(l2)[l2pgt := l2[l2pgt]]
        invariant WritesSmallPages(w, l2[l2pgt], k, i, x, flags)
      {
        l2 := l2[l2pgt := SetWord(l2[l2pgt], at, pte + i * PAGE_SIZE)];
        at := at + 1;
        i := i + 1;
      }
    }

    /** The second-level table for page p, attached first if there is none. */
    method L2PageTable(addr: nat, ghost p: nat) returns (l2pgt: nat)
      requires Valid() && addr == PAGE_SIZE * p && p / 256 < pgt.Length
      requires Lookup(pgt[..], l2, p / 256, p % 256) == None
      modifies this, pgt
      ensures Valid() && IsTable(pgt[p / 256]) && l2pgt == TableOf(pgt[p / 256])
      ensures l2pgt in l2 && |l2[l2pgt]| == L2_ENTRIES
      ensures forall m :: 0 <= m < pgt.Length && m != p / 256 ==> pgt[m] == old(pgt[m])
      ensures SameLookups(old(pgt[..]), old(l2), pgt[..], l2)
    {
      hide TablesInv;
      InvOk(pgt[..], l2, top, free, supply, handed);
      var pte := addr / SECTION_SIZE;
      if pgt[pte] == 0 {
        ghost var l1: seq<nat> := pgt[..];
        l2pgt := L2PageTableAlloc();
        assert pgt[..] == l1;
        InvAfterAttach(l1, l2, top, free, supply, handed, pte, l2pgt);
        mmuAttachL2pgt(l2pgt, addr);
        assert pgt[..] == l1[pte := l2pgt + L2_PGT];
        SameLookupsJoin(l1, old(l2), l1, l2, pgt[..], l2);
      } else {
        UnmappedEntry(pgt[..], l2, pte, p % 256);
        l2pgt := pgt[pte] / L2PGT_SIZE * L2PGT_SIZE;
      }
    }

    // ----- Mapping -----

    /** One turn of the loop of MemoryMap: map the best chunk at the start of a range of n pages. */
    method MapChunk(paddr: nat, addr: nat, length: nat, flags: nat, ghost p: nat, ghost q: nat, ghost n: nat)
      returns (map_size: nat, ghost d: nat)
      requires Valid() && addr == PAGE_SIZE * p && q == paddr / PAGE_SIZE && length == PAGE_SIZE * n && n > 0
      requires p + n <= 256 * pgt.Length && Unmapped(pgt[..], l2, p, n)
      requires FlagsOk(flags)
      modifies this, pgt
      ensures Valid() && map_size == PAGE_SIZE * d && 0 < d <= n
      ensures MapsRange(old(pgt[..]), old(l2), pgt[..], l2, p, d, q, FlagsAccess(flags))
      ensures EdgesAreTables(pgt[..], p, d) && KeepsTables(old(pgt[..]), pgt[..], p, d)
    {
      InPages(addr, p);
      InPages(length, n);
      InFrame(paddr, q);
      ghost var l1: seq<nat> := pgt[..];
      if length / LARGE_SECTION_SIZE != 0 && addr % LARGE_SECTION_SIZE == 0 && paddr % LARGE_SECTION_SIZE == 0 {
        // 16MB SUPERSECTION
        map_size := AlignDown(length, LARGE_SECTION_SIZE);
        d := n / 4096 * 4096;
        Scale(n, 4096);
        MultipleOf(n / 4096, 4096);
        Scale(d, 4096);
        Multiple(d, 4096);
        mmu_16M_page_map(paddr, addr, map_size / LARGE_SECTION_SIZE, flags + SUPERSECTION);
        SuperSectionChunk(l1, pgt[..], l2, p, d, q, flags);
        InvAfterSections(l1, pgt[..], l2, top, free, supply, handed);
      } else if length / SECTION_SIZE != 0 && addr % SECTION_SIZE == 0 && paddr % SECTION_SIZE == 0 {
        // 1M SECTION
        // Ensure that we don't cross the super section alignment
        map_size := ChunkSize(length, addr, SECTION_SIZE, LARGE_SECTION_SIZE);
        d := ChunkPages(length, addr, p, n, 256, 4096);
        Multiple(d, 256);
        mmu_1M_page_map(paddr, addr, map_size / SECTION_SIZE, flags + SECTION);
        SectionChunk(l1, pgt[..], l2, p, d, q, flags);
        InvAfterSections(l1, pgt[..], l2, top, free, supply, handed);
      } else {
        map_size, d := MapL2Chunk(paddr, addr, length, flags, p, q, n);
      }
    }

    /** Large or small pages, up to the end of the section or the large page. */
    method MapL2Chunk(paddr: nat, addr: nat, length: nat, flags: nat, ghost p: nat, ghost q: nat, ghost n: nat)
      returns (map_size: nat, ghost d: nat)
      requires Valid() && addr == PAGE_SIZE * p && q == paddr / PAGE_SIZE && length == PAGE_SIZE * n && n > 0
      requires p + n <= 256 * pgt.Length && Unmapped(pgt[..], l2, p, n)
      requires FlagsOk(flags)
      modifies this, pgt
      ensures Valid() && map_size == PAGE_SIZE * d && 0 < d <= n
      ensures MapsRange(old(pgt[..]), old(l2), pgt[..], l2, p, d, q, FlagsAccess(flags))
      ensures EdgesAreTables(pgt[..], p, d) && KeepsTables(old(pgt[..]), pgt[..], p, d)
    {
      var l2pgt := L2PageTable(addr, p);
      ghost var l1: seq<nat>, words := pgt[..], l2;
      if length / LARGE_PAGE_SIZE != 0 && addr % LARGE_PAGE_SIZE == 0 && paddr % LARGE_PAGE_SIZE == 0 {
        map_size, d := MapLargePages(l2pgt, paddr, addr, length, flags, p, q, n);
      } else {
        map_size, d := MapSmallPages(l2pgt, paddr, addr, length, flags, p, q, n);
      }
      assert pgt[..] == l1;
      SameThenMaps(old(pgt[..]), old(l2), l1, words, l1, l2, p, d, q, FlagsAccess(flags));
    }

    method MapLargePages(l2pgt: nat, paddr: nat, addr: nat, length: nat, flags: nat, ghost p: nat, ghost q: nat,
                         ghost n: nat)
      returns (map_size: nat, ghost d: nat)
      requires Valid() && addr == PAGE_SIZE * p && q == paddr / PAGE_SIZE && length == PAGE_SIZE * n
      requires p / 256 < pgt.Length && IsTable(pgt[p / 256]) && l2pgt == TableOf(pgt[p / 256])
      requires l2pgt in l2 && |l2[l2pgt]| == L2_ENTRIES && FlagsOk(flags)
      requires length / LARGE_PAGE_SIZE != 0 && addr % LARGE_PAGE_SIZE == 0 && paddr % LARGE_PAGE_SIZE == 0
      modifies this`l2
      ensures Valid() && map_size == PAGE_SIZE * d && 0 < d <= n
      ensures MapsRange(pgt[..], old(l2), pgt[..], l2, p, d, q, FlagsAccess(flags)) && EdgesAreTables(pgt[..], p, d)
    {
      InPages(addr, p);
      InPages(length, n);
      InFrame(paddr, q);
      // 64KB LARGEPAGE
      var pflags := LargePageFlags(flags) + LARGEPAGE;
      // Ensure that we don't cross the section alignment
      map_size := ChunkSize(length, addr, LARGE_PAGE_SIZE, SECTION_SIZE);
      d := ChunkPages(length, addr, p, n, 16, 256);
      Multiple(d, 16);
      mmu_64K_page_map(l2pgt, paddr, addr, map_size / LARGE_PAGE_SIZE, pflags);
      LargePageChunk(pgt[..], old(l2), l2[l2pgt], p, d, q, flags);
      InvAfterWords(pgt[..], old(l2), top, free, supply, handed, p / 256, l2[l2pgt]);
    }

    method MapSmallPages(l2pgt: nat, paddr: nat, addr: nat, length: nat, flags: nat, ghost p: nat, ghost q: nat,
                         ghost n: nat)
      returns (map_size: nat, ghost d: nat)
      requires Valid() && addr == PAGE_SIZE * p && q == paddr / PAGE_SIZE && length == PAGE_SIZE * n && n > 0
      requires p / 256 < pgt.Length && IsTable(pgt[p / 256]) && l2pgt == TableOf(pgt[p / 256])
      requires l2pgt in l2 && |l2[l2pgt]| == L2_ENTRIES && FlagsOk(flags)
      modifies this`l2
      ensures Valid() && map_size == PAGE_SIZE * d && 0 < d <= n
      ensures MapsRange(pgt[..], old(l2), pgt[..], l2, p, d, q, FlagsAccess(flags)) && EdgesAreTables(pgt[..], p, d)
    {
      InPages(addr, p);
      // 4KB SMALLPAGE
      var pflags := SmallPageFlags(flags) + SMALLPAGE;
      // Ensure that we don't cross the large page alignment
      map_size := ChunkSize(length, addr, PAGE_SIZE, LARGE_PAGE_SIZE);
      d := ChunkPages(length, addr, p, n, 1, 16);
      SmallInTable(p, d);
      mmu_4K_page_map(l2pgt, paddr, addr, map_size / PAGE_SIZE, pflags);
      SmallPageChunk(pgt[..], old(l2), l2[l2pgt], p, d, q, flags);
      InvAfterWords(pgt[..], old(l2), top, free, supply, handed, p / 256, l2[l2pgt]);
    }

    /** Map size bytes at v_addr to physical memory at p_addr with the best mix of entries, and grant what the
        configuration gets. */
    method MemoryMap(p_addr: nat, v_addr: nat, size: nat, memCfg: MemCfg)
      requires Valid() && CfgOk(memCfg)
      requires v_addr / PAGE_SIZE + PageCount(size + v_addr % PAGE_SIZE) <= 256 * pgt.Length
      requires Unmapped(pgt[..], l2, v_addr / PAGE_SIZE, PageCount(size + v_addr % PAGE_SIZE))
      modifies this, pgt
      ensures Valid()
      ensures MapsRange(old(pgt[..]), old(l2), pgt[..], l2,
                        v_addr / PAGE_SIZE, PageCount(size + v_addr % PAGE_SIZE), p_addr / PAGE_SIZE, Granted(memCfg))
      ensures EdgesAreTables(pgt[..], v_addr / PAGE_SIZE, PageCount(size + v_addr % PAGE_SIZE))
      ensures KeepsTables(old(pgt[..]), pgt[..], v_addr / PAGE_SIZE, PageCount(size + v_addr % PAGE_SIZE))
    {
      hide TablesInv, Mapping, Unmapped, KeepsTables, FlagsOk, FlagsAccess, Granted;
      var paddr := p_addr;
      var flags := GetPteFlags(memCfg);
      // Align address to the page size
      var addr := AlignDown(v_addr, PAGE_SIZE);
      // Compute new size (in case the base address changed) and align it to the page size
      var length := PageCount(size + v_addr % PAGE_SIZE) * PAGE_SIZE;
      ghost var p, q, n: nat := v_addr / PAGE_SIZE, p_addr / PAGE_SIZE, PageCount(size + v_addr % PAGE_SIZE);
      ghost var l1: seq<nat>, c: nat, g := pgt[..], 0, Granted(memCfg);
      FlagsGrant(memCfg);
      MappingStart(l1, l2, p, n, q, g);
      KeepsNothing(l1, p);
      while length != 0
        invariant Valid() && addr == PAGE_SIZE * (p + c) && length == PAGE_SIZE * (n - c)
        invariant paddr / PAGE_SIZE == q + c
        invariant Mapping(l1, old(l2), pgt[..], l2, p, c, n, q, g) && KeepsTables(l1, pgt[..], p, c)
        decreases length
      {
        ghost var l1': seq<nat>, l2' := pgt[..], l2;
        MappingPending(l1, old(l2), l1', l2', p, c, n, q, g);
        var map_size;
        ghost var d;
        map_size, d := MapChunk(paddr, addr, length, flags, p + c, q + c, n - c);
        MappingStep(l1, old(l2), l1', l2', pgt[..], l2, p, c, d, n, q, g);
        KeepsJoin(l1, l1', pgt[..], p, c, d);
        Advance(paddr, d);
        addr := addr + map_size;
        paddr := paddr + map_size;
        length := length - map_size;
        c := c + d;
      }
      MappingEnd(l1, old(l2), pgt[..], l2, p, n, q, g);
    }

    /** Translate a virtual address; an address that maps nowhere gives 0. */
    method MemoryVirtual2physical(v_addr: nat) returns (p_addr: nat)
      requires Valid() && v_addr / SECTION_SIZE < pgt.Length
      ensures p_addr == match Translate(pgt[..], l2, v_addr)
                        case None => 0
                        case Some(a) => a
    {
      p_addr := 0;
      var entry := pgt[v_addr / SECTION_SIZE];
      SplitAddress(v_addr);
      assert EntryOk(entry, l2);
      if Bit(entry, 2) {
        if Bit(entry, 0x4_0000) {
          // 16MB entry
          p_addr := AlignDown(entry, LARGE_SECTION_SIZE) + v_addr % LARGE_SECTION_SIZE;
        } else {
          // 1MB entry
          p_addr := AlignDown(entry, SECTION_SIZE) + v_addr % SECTION_SIZE;
        }
      } else if Bit(entry, 1) {
        entry := l2[TableOf(entry)][v_addr / PAGE_SIZE % 256];
        if Bit(entry, 2) {
          // 4KB entry
          p_addr := AlignDown(entry, PAGE_SIZE) + v_addr % PAGE_SIZE;
        } else if Bit(entry, 1) {
          // 64KB entry
          p_addr := AlignDown(entry, LARGE_PAGE_SIZE) + v_addr % LARGE_PAGE_SIZE;
        }
      }
    }

    // ----- Unmapping -----

    /** Clear the words for bytes bytes from word k of the table of entry m on. */
    method ClearWords(l2pgt: nat, k: nat, bytes: nat, ghost m: nat)
      requires Valid() && m < pgt.Length && k + PageCount(bytes) <= L2_ENTRIES
      requires IsTable(pgt[m]) && l2pgt == TableOf(pgt[m])
      modifies this`l2
      ensures Valid() && UnmapsRange(pgt[..], old(l2), pgt[..], l2, 256 * m + k, PageCount(bytes))
    {
      AttachedKnown(pgt[..], l2);
      ghost var w := l2[l2pgt];
      var at, i, c: nat := k, 0, 0;
      while i < bytes
        invariant i == PAGE_SIZE * c && at == k + c && c <= PageCount(bytes)
        invariant l2pgt in l2 && l2 == old(l2)[l2pgt := l2[l2pgt]] && |l2[l2pgt]| == L2_ENTRIES
        invariant forall j :: 0 <= j < L2_ENTRIES ==> l2[l2pgt][j] == if k <= j < k + c then 0 else w[j]
        decreases bytes - i
      {
        l2 := l2[l2pgt := SetWord(l2[l2pgt], at, 0)];
        at, i, c := at + 1, i + PAGE_SIZE, c + 1;
      }
      WordsUnmap(pgt[..], old(l2), m, l2[l2pgt], k, PageCount(bytes));
      InvAfterWords(pgt[..], old(l2), top, free, supply, handed, m, l2[l2pgt]);
    }

    /** Clear count entries from entry offset on and hand back the tables they point to. */
    method ClearSections(offset: nat, count: nat)
      requires Valid() && offset + count <= pgt.Length
      modifies this, pgt
      ensures Valid() && UnmapsRange(old(pgt[..]), old(l2), pgt[..], l2, 256 * offset, 256 * count)
      ensures forall m :: 0 <= m < pgt.Length && !(offset <= m < offset + count) ==> pgt[m] == old(pgt[m])
    {
      var i := offset;
      UnmapsNothing(pgt[..], l2, 256 * offset);
      while i < offset + count
        invariant offset <= i <= offset + count && Valid()
        invariant UnmapsRange(old(pgt[..]), old(l2), pgt[..], l2, 256 * offset, 256 * (i - offset))
        invariant forall m :: 0 <= m < pgt.Length && !(offset <= m < i) ==> pgt[m] == old(pgt[m])
      {
        ghost var l1: seq<nat>, l2' := pgt[..], l2;
        ClearEntry(pgt[..], l2, top, free, supply, handed, i);
        // Check if is necessary to deallocate a L2 page tables
        if Bit(pgt[i], 1) {
          var l2_pt := TableOf(pgt[i]);
          L2PageTableDealloc(l2_pt);
          free := [l2_pt] + free;
        }
        // Clean entry
        pgt[i] := 0;
        assert pgt[..] == l1[i := 0];
        UnmapsRangeJoin(old(pgt[..]), old(l2), l1, l2', pgt[..], l2, 256 * offset, 256 * (i - offset), 256);
        i := i + 1;
      }
    }

    /** Unmap size bytes at v_addr. Sections that are covered are cleared in the first-level table; a
        section covered in part only must have a second-level table. */
    method MemoryUnmap(v_addr: nat, size: nat)
      requires Valid() && v_addr / PAGE_SIZE + PageCount(size) <= 256 * pgt.Length
      requires PartsAreTables(pgt[..], v_addr / PAGE_SIZE, size)
      modifies this, pgt
      ensures Valid() && UnmapsRange(old(pgt[..]), old(l2), pgt[..], l2, v_addr / PAGE_SIZE, PageCount(size))
      ensures KeepsTables(old(pgt[..]), pgt[..], v_addr / PAGE_SIZE, PageCount(size))
      decreases size, 1
    {
      // Adjust virtual address to the minimum page size
      var vaddr := AlignDown(v_addr, PAGE_SIZE);
      ghost var p := v_addr / PAGE_SIZE;
      InPages(vaddr, p);
      if size / SECTION_SIZE != 0 && vaddr % SECTION_SIZE == 0 {
        UnmapSections(vaddr, size, p);
      } else {
        UnmapPages(vaddr, size, p);
      }
    }

    /** MemoryUnmap from the start of a section on. */
    method UnmapSections(vaddr: nat, size: nat, ghost p: nat)
      requires Valid() && vaddr == PAGE_SIZE * p && p + PageCount(size) <= 256 * pgt.Length
      requires PartsAreTables(pgt[..], p, size) && size / SECTION_SIZE != 0 && p % 256 == 0
      modifies this, pgt
      ensures Valid() && UnmapsRange(old(pgt[..]), old(l2), pgt[..], l2, p, PageCount(size))
      ensures KeepsTables(old(pgt[..]), pgt[..], p, PageCount(size))
      decreases size, 0
    {
      hide TablesInv, UnmapsRange, PartsAreTables, KeepsTables;
      // Get offset from the beginning of the page table
      var offset := vaddr / SECTION_SIZE;
      var count, rest := size / SECTION_SIZE, size % SECTION_SIZE;
      InPages(vaddr, p);
      CoveredSections(p, size);
      ghost var l1: seq<nat> := pgt[..];
      ClearSections(offset, count);
      KeepsCleared(l1, pgt[..], offset, count);
      if rest != 0 {
        // Resolve pending memory sections in a recursive way
        ghost var l1': seq<nat>, l2' := pgt[..], l2;
        RestParts(l1, l1', p, 256 * count, size, rest);
        NextAddress(vaddr, p, SECTION_SIZE * count, 256 * count);
        MemoryUnmap(vaddr + SECTION_SIZE * count, rest);
        UnmapsRangeJoin(l1, old(l2), l1', l2', pgt[..], l2, p, 256 * count, PageCount(rest));
        KeepsJoin(l1, l1', pgt[..], p, 256 * count, PageCount(rest));
      }
    }

    /** MemoryUnmap through the second-level table of the section that vaddr lies in. */
    method UnmapPages(vaddr: nat, size: nat, ghost p: nat)
      requires Valid() && vaddr == PAGE_SIZE * p && p + PageCount(size) <= 256 * pgt.Length
      requires PartsAreTables(pgt[..], p, size) && (size / SECTION_SIZE == 0 || p % 256 != 0)
      modifies this, pgt
      ensures Valid() && UnmapsRange(old(pgt[..]), old(l2), pgt[..], l2, p, PageCount(size))
      ensures KeepsTables(old(pgt[..]), pgt[..], p, PageCount(size))
      decreases size, 0
    {
      hide TablesInv, UnmapsRange, PartsAreTables, KeepsTables;
      ghost var l1: seq<nat> := pgt[..];
      InPages(vaddr, p);
      PartOfSection(l1, p, size);
      if size == 0 {
        UnmapsNothing(l1, l2, p);
        KeepsNothing(l1, p);
        return;
      }
      var offset := vaddr / SECTION_SIZE;
      var l2pgt := TableOf(pgt[offset]);
      // Get base entry for the virtual address
      var k := vaddr / PAGE_SIZE % 256;
      // Check if the memory section pass the 1MB boundary
      var overflow := vaddr % SECTION_SIZE + size;
      if overflow > SECTION_SIZE {
        // Compute memory section size being unmap in the first section
        var unmap_size := SECTION_SIZE - vaddr % SECTION_SIZE;
        FirstPart(p);
        ClearWords(l2pgt, k, unmap_size, offset);
        assert pgt[..] == l1;
        ghost var l2' := l2;
        // Resolve pending memory sections in a recursive way
        RestParts(l1, l1, p, 256 - k, size, size - unmap_size);
        NextAddress(vaddr, p, unmap_size, 256 - k);
        MemoryUnmap(vaddr + unmap_size, size - unmap_size);
        UnmapsRangeJoin(l1, old(l2), l1, l2', pgt[..], l2, p, 256 - k, PageCount(size - unmap_size));
        KeepsSame(l1, p, 256 - k);
        KeepsJoin(l1, l1, pgt[..], p, 256 - k, PageCount(size - unmap_size));
      } else {
        ClearWords(l2pgt, k, size, offset);
        assert pgt[..] == l1;
        KeepsSame(l1, p, PageCount(size));
      }
    }

    /** Mapping a range and translating an address, whether in the range or not. */
    method MapThenTranslate(p_addr: nat, v_addr: nat, size: nat, memCfg: MemCfg, a: nat) returns (ret: nat)
      requires Valid() && CfgOk(memCfg) && a / SECTION_SIZE < pgt.Length
      requires v_addr / PAGE_SIZE + PageCount(size + v_addr % PAGE_SIZE) <= 256 * pgt.Length
      requires Unmapped(pgt[..], l2, v_addr / PAGE_SIZE, PageCount(size + v_addr % PAGE_SIZE))
      modifies this, pgt
      ensures v_addr <= a < v_addr + size && p_addr % PAGE_SIZE == v_addr % PAGE_SIZE ==> ret == p_addr + (a - v_addr)
      ensures v_addr % PAGE_SIZE == 0 && size % PAGE_SIZE == 0 && !(v_addr <= a < v_addr + size) ==>
                ret == match old(Translate(pgt[..], l2, a)) case None => 0 case Some(b) => b
    {
      hide Translate, MapsRange, TablesInv;
      if size % PAGE_SIZE == 0 { WholePages(size); }
      MemoryMap(p_addr, v_addr, size, memCfg);
      MappedBytes(old(pgt[..]), old(l2), pgt[..], l2, p_addr, v_addr, size, Granted(memCfg), a);
      ret := MemoryVirtual2physical(a);
    }

    /** Mapping an unmapped range of pages and unmapping it again. */
    method MapThenUnmap(p_addr: nat, v_addr: nat, size: nat, memCfg: MemCfg)
      requires Valid() && CfgOk(memCfg) && v_addr % PAGE_SIZE == 0 && size % PAGE_SIZE == 0
      requires v_addr / PAGE_SIZE + size / PAGE_SIZE <= 256 * pgt.Length
      requires Unmapped(pgt[..], l2, v_addr / PAGE_SIZE, size / PAGE_SIZE)
      modifies this, pgt
      ensures Valid() && SameLookups(old(pgt[..]), old(l2), pgt[..], l2)
    {
      ghost var p, n, q := v_addr / PAGE_SIZE, size / PAGE_SIZE, p_addr / PAGE_SIZE;
      WholePages(size);
      MemoryMap(p_addr, v_addr, size, memCfg);
      ghost var l1', l2' := pgt[..], l2;
      EdgesAreParts(pgt[..], p, n, size);
      MemoryUnmap(v_addr, size);
      UnmapUndoesMap(old(pgt[..]), old(l2), l1', l2', pgt[..], l2, p, n, q, Granted(memCfg));
    }
  }
}
