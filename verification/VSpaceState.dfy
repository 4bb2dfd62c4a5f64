/** Virtual spaces (memory/virtual/vmap.c): reserved ranges of pages, filled from one end. Addresses and
    sizes are counted in pages. */
module VSpaceState {
  import opened Utils
  import Arith
  import opened PageAccess
  import opened PageLookup
  import opened PageWrites

  /** A mapped section: its first page, its pages, the physical page that the first is mapped to, and the access
      that is granted. */
  datatype VPage = VPage(vAddr: nat, size: nat, pAddr: nat, access: Access)

  /** The sections of list, the latest first, lie end to end from lo to hi. Stacks grow downwards. */
  ghost predicate Tiles(list: seq<VPage>, lo: nat, hi: nat, stack: bool)
    decreases |list|
  {
    if list == [] then lo == hi
    else if stack then list[0].vAddr == lo && Tiles(list[1..], lo + list[0].size, hi, stack)
    else list[0].vAddr + list[0].size == hi && Tiles(list[1..], lo, list[0].vAddr, stack)
  }

  /** Every page of a section is mapped to its physical page, with the section's access. */
  ghost predicate Shows(l1: seq<nat>, l2: map<nat, seq<nat>>, e: VPage) {
    forall m: nat, s: nat | s < L2_ENTRIES && e.vAddr <= 256 * m + s < e.vAddr + e.size ::
      Lookup(l1, l2, m, s) == Some(Page(e.pAddr + (256 * m + s - e.vAddr), e.access))
  }

  /** A filled range has no gap: every page of it is in a section. */
  lemma {:induction false} TilesCover(list: seq<VPage>, lo: nat, hi: nat, stack: bool, p: nat) returns (i: nat)
    requires Tiles(list, lo, hi, stack) && lo <= p < hi
    ensures i < |list| && list[i].vAddr <= p < list[i].vAddr + list[i].size
    decreases |list|
  {
    var e := list[0];
    if e.vAddr <= p < e.vAddr + e.size {
      i := 0;
    } else {
      var j := TilesCover(list[1..], if stack then lo + e.size else lo, if stack then hi else e.vAddr, stack, p);
      i := j + 1;
    }
  }

  /** Nor an overlap, and nothing of it lies outside. */
  lemma {:induction false} TilesWithin(list: seq<VPage>, lo: nat, hi: nat, stack: bool)
    requires Tiles(list, lo, hi, stack)
    ensures lo <= hi
    ensures forall i :: 0 <= i < |list| ==> lo <= list[i].vAddr && list[i].vAddr + list[i].size <= hi
    ensures forall i, j :: 0 <= i < j < |list| ==>
              if stack then list[i].vAddr + list[i].size <= list[j].vAddr
              else list[j].vAddr + list[j].size <= list[i].vAddr
    decreases |list|
  {
    if list != [] {
      var e, rest := list[0], list[1..];
      TilesWithin(rest, if stack then lo + e.size else lo, if stack then hi else e.vAddr, stack);
      forall i | 0 <= i < |list|
        ensures lo <= list[i].vAddr && list[i].vAddr + list[i].size <= hi
      {
        if i > 0 { assert list[i] == rest[i - 1]; }
      }
      forall i, j | 0 <= i < j < |list|
        ensures if stack then list[i].vAddr + list[i].size <= list[j].vAddr
                  else list[j].vAddr + list[j].size <= list[i].vAddr
      {
        assert list[j] == rest[j - 1];
        if i > 0 { assert list[i] == rest[i - 1]; }
      }
    }
  }

  /** One more section at the growing end. */
  lemma TilesMore(list: seq<VPage>, lo: nat, hi: nat, stack: bool, e: VPage)
    requires Tiles(list, lo, hi, stack)
    requires if stack then e.vAddr + e.size == lo else e.vAddr == hi
    ensures if stack then Tiles([e] + list, e.vAddr, hi, stack) else Tiles([e] + list, lo, e.vAddr + e.size, stack)
  {
    assert ([e] + list)[1..] == list;
  }

  /** A section is mapped, and where it covers a table's pages only in part the table is there. */
  ghost predicate Placed(l1: seq<nat>, l2: map<nat, seq<nat>>, e: VPage) {
    Shows(l1, l2, e) && EdgesAreTables(l1, e.vAddr, e.size)
  }

  /** No page outside a range translates differently. */
  ghost predicate SameOutside(l1: seq<nat>, l2: map<nat, seq<nat>>, l1': seq<nat>, l2': map<nat, seq<nat>>, p: nat,
                              n: nat) {
    forall m: nat, s: nat | s < L2_ENTRIES && !(p <= 256 * m + s < p + n) ::
      Lookup(l1', l2', m, s) == Lookup(l1, l2, m, s)
  }

  lemma OutsideMapped(l1: seq<nat>, l2: map<nat, seq<nat>>, l1': seq<nat>, l2': map<nat, seq<nat>>, p: nat, n: nat,
                      q: nat,
                      a: nat, k: nat, g: Access)
    requires MapsRange(l1, l2, l1', l2', p, n, q, g) && (n == 0 || (a <= p && p + n <= a + k))
    ensures SameOutside(l1, l2, l1', l2', a, k)
  {
  }

  lemma OutsideUnmapped(l1: seq<nat>, l2: map<nat, seq<nat>>, l1': seq<nat>, l2': map<nat, seq<nat>>, p: nat, n: nat,
                        a: nat, k: nat)
    requires UnmapsRange(l1, l2, l1', l2', p, n) && (n == 0 || (a <= p && p + n <= a + k))
    ensures SameOutside(l1, l2, l1', l2', a, k)
  {
  }

  lemma OutsideJoin(l1: seq<nat>, l2: map<nat, seq<nat>>, l1': seq<nat>, l2': map<nat, seq<nat>>,
                    l1'': seq<nat>, l2'': map<nat, seq<nat>>, a: nat, k: nat)
    requires SameOutside(l1, l2, l1', l2', a, k) && SameOutside(l1', l2', l1'', l2'', a, k)
    ensures SameOutside(l1, l2, l1'', l2'', a, k)
  {
  }

  /** A range that is unmapped in the end as it was before, while nothing else changed. */
  lemma OutsideRestored(l1: seq<nat>, l2: map<nat, seq<nat>>, l1': seq<nat>, l2': map<nat, seq<nat>>, a: nat, k: nat)
    requires SameOutside(l1, l2, l1', l2', a, k) && Unmapped(l1, l2, a, k) && Unmapped(l1', l2', a, k)
    ensures SameLookups(l1, l2, l1', l2')
  {
  }

  /** Sections elsewhere stay when a range is mapped, and the range is a section itself. */
  lemma PlacedMapped(l1: seq<nat>, l2: map<nat, seq<nat>>, l1': seq<nat>, l2': map<nat, seq<nat>>, p: nat, n: nat,
                     q: nat, e: VPage, g: Access)
    requires MapsRange(l1, l2, l1', l2', p, n, q, g) && KeepsTables(l1, l1', p, n) && EdgesAreTables(l1', p, n)
    ensures Placed(l1', l2', VPage(p, n, q, g))
    ensures Placed(l1, l2, e) && (e.vAddr + e.size <= p || p + n <= e.vAddr) ==> Placed(l1', l2', e)
  {
    hide Lookup;
    if Placed(l1, l2, e) && (e.vAddr + e.size <= p || p + n <= e.vAddr) {
      EdgesKept(l1, l1', p, n, e.vAddr, e.size);
    }
  }

  /** Sections elsewhere stay when a range is unmapped. */
  lemma PlacedUnmapped(l1: seq<nat>, l2: map<nat, seq<nat>>, l1': seq<nat>, l2': map<nat, seq<nat>>, p: nat, n: nat,
                       e: VPage)
    requires UnmapsRange(l1, l2, l1', l2', p, n) && KeepsTables(l1, l1', p, n)
    requires Placed(l1, l2, e) && (e.vAddr + e.size <= p || p + n <= e.vAddr)
    ensures Placed(l1', l2', e)
  {
    EdgesKept(l1, l1', p, n, e.vAddr, e.size);
  }

  /** The edges of a space stay tables whatever part of it changes. */
  lemma EdgesKeptWithin(l1: seq<nat>, l1': seq<nat>, p: nat, n: nat, a: nat, k: nat)
    requires EdgesAreTables(l1, a, k) && KeepsTables(l1, l1', p, n) && a <= p && p + n <= a + k
    ensures EdgesAreTables(l1', a, k)
  {
  }

  /** A full space has tables at its edges. */
  lemma FullEdges(l1: seq<nat>, l2: map<nat, seq<nat>>, list: seq<VPage>, lo: nat, hi: nat, stack: bool)
    requires Tiles(list, lo, hi, stack) && lo <= hi && forall i :: 0 <= i < |list| ==> Placed(l1, l2, list[i])
    ensures EdgesAreTables(l1, lo, hi - lo)
  {
    TilesWithin(list, lo, hi, stack);
    forall m | 0 <= m < |l1| && Touches(lo, hi - lo, m) && !Inside(lo, hi - lo, m)
      ensures IsTable(l1[m])
    {
      var p := if lo < 256 * m then 256 * m else lo;
      var i := TilesCover(list, lo, hi, stack, p);
      var e := list[i];
      assert Placed(l1, l2, e) && Touches(e.vAddr, e.size, m) && !Inside(e.vAddr, e.size, m);
    }
  }

  /** A range that no table serves, like that of a space never used, has them exactly if it covers no entry's
      pages in part. */
  lemma UnusedEdges(l1: seq<nat>, lo: nat, n: nat)
    requires lo + n <= 256 * |l1| && forall m :: 0 <= m < |l1| && Touches(lo, n, m) ==> !IsTable(l1[m])
    ensures EdgesAreTables(l1, lo, n) <==> n == 0 || (lo % 256 == 0 && (lo + n) % 256 == 0)
  {
    if n > 0 && lo % 256 != 0 {
      assert Touches(lo, n, lo / 256) && !Inside(lo, n, lo / 256);
    } else if n > 0 && (lo + n) % 256 != 0 {
      var m := (lo + n) / 256;
      assert Touches(lo, n, m) && !Inside(lo, n, m);
    }
  }

  /** An unmapped range and the one next to it that was unmapped now. */
  lemma UnmappedBoth(l1: seq<nat>, l2: map<nat, seq<nat>>, l1': seq<nat>, l2': map<nat, seq<nat>>, p: nat, n: nat,
                     a: nat, k: nat)
    requires UnmapsRange(l1, l2, l1', l2', p, n) && Unmapped(l1, l2, a, k)
    ensures p + n == a ==> Unmapped(l1', l2', p, n + k)
    ensures a + k == p ==> Unmapped(l1', l2', a, k + n)
  {
  }

  lemma UnmappedNow(l1: seq<nat>, l2: map<nat, seq<nat>>, l1': seq<nat>, l2': map<nat, seq<nat>>, p: nat, n: nat)
    requires UnmapsRange(l1, l2, l1', l2', p, n)
    ensures Unmapped(l1', l2', p, n)
  {
  }

  lemma OutsideNothing(l1: seq<nat>, l2: map<nat, seq<nat>>, a: nat, k: nat)
    ensures SameOutside(l1, l2, l1, l2, a, k)
  {
  }

  /** Unmapping what comes before an unmapped range. */
  lemma UnmapsRangeBefore(l1: seq<nat>, l2: map<nat, seq<nat>>, l1': seq<nat>, l2': map<nat, seq<nat>>,
                          l1'': seq<nat>, l2'': map<nat, seq<nat>>, p: nat, n: nat, k: nat)
    requires UnmapsRange(l1, l2, l1', l2', p + n, k) && UnmapsRange(l1', l2', l1'', l2'', p, n)
    ensures UnmapsRange(l1, l2, l1'', l2'', p, n + k)
  {
  }

  /** How many of the latest sections unmapping n pages takes away, as long as they are not larger. */
  function Pops(list: seq<VPage>, n: nat): (k: nat)
    ensures k <= |list|
  {
    if n == 0 || list == [] || list[0].size > n then 0 else 1 + Pops(list[1..], n - list[0].size)
  }

  /** The pages that are left then. */
  function PopsLeft(list: seq<VPage>, n: nat): nat {
    if n == 0 || list == [] || list[0].size > n then n else PopsLeft(list[1..], n - list[0].size)
  }

  lemma TilesNothing(at: nat, stack: bool)
    ensures Tiles([], at, at, stack)
  {
  }

  lemma PopsStep(list: seq<VPage>, n: nat)
    requires n > 0 && list != []
    ensures Pops(list, n) == if list[0].size > n then 0 else 1 + Pops(list[1..], n - list[0].size)
    ensures PopsLeft(list, n) == if list[0].size > n then n else PopsLeft(list[1..], n - list[0].size)
  {
  }

  lemma PopsEnd(list: seq<VPage>, n: nat)
    requires n == 0 || list == []
    ensures Pops(list, n) == 0 && PopsLeft(list, n) == n
  {
  }

  lemma PopsFirst(e: VPage, list: seq<VPage>, n: nat)
    requires e.size == n
    ensures Pops([e] + list, n) == if n > 0 then 1 else 0
    ensures PopsLeft([e] + list, n) == 0
  {
    assert ([e] + list)[1..] == list;
  }

  lemma UnmappedPart(l1: seq<nat>, l2: map<nat, seq<nat>>, p: nat, n: nat, a: nat, k: nat)
    requires Unmapped(l1, l2, p, n) && p <= a && a + k <= p + n
    ensures Unmapped(l1, l2, a, k)
  {
  }

  lemma UnmappedStays(l1: seq<nat>, l2: map<nat, seq<nat>>, l1': seq<nat>, l2': map<nat, seq<nat>>, p: nat, n: nat,
                      q: nat, a: nat, k: nat, g: Access)
    requires MapsRange(l1, l2, l1', l2', p, n, q, g) && Unmapped(l1, l2, a, k) && (a + k <= p || p + n <= a)
    ensures Unmapped(l1', l2', a, k)
  {
  }

  /** vPageMapMemory adds the offset of an unaligned physical address to a size that vSpaceMapSection has
      added it to before: only for aligned ones does it map what was accounted for. */
  lemma OffsetCountsTwice(pAddr: nat, size: nat)
    ensures var mapSize := PageCount(size + pAddr % PAGE_SIZE) * PAGE_SIZE;
            PageCount(mapSize + pAddr % PAGE_SIZE) == PageCount(size + pAddr % PAGE_SIZE) <==> pAddr % PAGE_SIZE == 0
  {
    var n, r := PageCount(size + pAddr % PAGE_SIZE), pAddr % PAGE_SIZE;
    Rounded(n, r);
  }

  lemma Rounded(n: nat, r: nat)
    requires r < PAGE_SIZE
    ensures PageCount(n * PAGE_SIZE + r) == if r == 0 then n else n + 1
  {
    var x := n * PAGE_SIZE + r + PAGE_SIZE - 1;
    if r == 0 {
      Arith.DivUnique(x, PAGE_SIZE, n, PAGE_SIZE - 1);
    } else {
      Arith.DivUnique(x, PAGE_SIZE, n + 1, r - 1);
    }
  }
}
