/** The ring of free blocks of a memory pool (memory/mpool.c) as a list that begins at the head of the ring.
    The list need not be sorted, since a block behind all others becomes the head. */
module PoolRing {
  import opened Utils
  import Arith
  import opened HeapBlocks
  import opened Owners

  /** sizeof(pmm_t), the header that a free block begins with. */
  const MPOOL_NINSIZE: nat := 16

  function RoundUp(size: nat, align: nat): (r: nat)
    requires align > 0
    ensures r >= size && r < size + align && r % align == 0
  {
    if size % align == 0 then size else RoundedUp(size, align); size - size % align + align
  }

  lemma RoundedUp(size: nat, align: nat)
    requires align > 0
    ensures (size - size % align + align) % align == 0
  {
    var q, r := size / align, size % align;
    assert size - r + align == align * (q + 1);
    Arith.TimesIsMultiple(align, q + 1);
  }

  // ----- Well-formed rings -----

  ghost predicate Disjoint(s: seq<HeapBlock>) {
    forall i, j :: 0 <= i < j < |s| ==> End(s[i]) <= s[j].addr || End(s[j]) <= s[i].addr
  }

  predicate PoolBlock(b: HeapBlock, align: nat)
    requires align > 0
  {
    b.addr > 0 && b.addr % align == 0 && b.size >= MPOOL_NINSIZE
  }

  /** Blocks are pairwise disjoint, aligned, and have room for their header. */
  ghost predicate Ring(s: seq<HeapBlock>, align: nat)
    requires align > 0
  {
    Disjoint(s) && forall i :: 0 <= i < |s| ==> PoolBlock(s[i], align)
  }

  // ----- pmmInsert -----

  /** The block that pmmInsert stops at: the first above address a, or the head. */
  function StopAt(s: seq<HeapBlock>, a: nat): (i: nat)
    requires s != []
    ensures i < |s| && (s[i].addr > a || i == 0)
  {
    var i := FirstAbove(s, a);
    if i == |s| then 0 else i
  }

  function FirstAbove(s: seq<HeapBlock>, a: nat): (i: nat)
    ensures i <= |s| && (forall j :: 0 <= j < i ==> s[j].addr <= a) && (i < |s| ==> s[i].addr > a)
  {
    if s == [] || s[0].addr > a then 0 else 1 + FirstAbove(s[1..], a)
  }

  function Pred(i: nat, n: nat): (p: nat)
    requires i < n
    ensures p < n
  {
    if i == 0 then n - 1 else i - 1
  }

  /** The same ring, from its last block on. */
  function Turned(s: seq<HeapBlock>): (r: seq<HeapBlock>)
    requires s != []
    ensures |r| == |s| && forall j :: 0 <= j < |s| ==> r[j] == s[Pred(j, |s|)]
  {
    [s[|s| - 1]] + s[..|s| - 1]
  }

  /** Block k leaves and the one before it takes its bytes and the n bytes between them. */
  function Bridged(s: seq<HeapBlock>, k: nat, n: nat): seq<HeapBlock>
    requires 0 < k < |s|
  {
    Grown(Cut(s, k), k - 1, n + s[k].size)
  }

  /** The ring with the n bytes from a on: they extend the block before the stop, or the stop itself, or
      both at once, or are a block of their own. The head moves when its block is replaced. */
  function RingInsert(s: seq<HeapBlock>, a: nat, n: nat): seq<HeapBlock> {
    if s == [] then [HeapBlock(a, n)]
    else
      var i := StopAt(s, a);
      var p := Pred(i, |s|);
      if End(s[p]) == a then
        if s[i].addr == a + n && i != p then
          if i == 0 then Bridged(Turned(s), 1, n) else Bridged(s, i, n)
        else Grown(s, p, n)
      else if s[i].addr == a + n then s[i := HeapBlock(a, n + s[i].size)]
      else InsertAt(s, i, HeapBlock(a, n))
  }

  // ----- Bytes -----

  lemma TurnedKeeps(s: seq<HeapBlock>, x: nat)
    requires s != []
    ensures Covers(Turned(s), x) <==> Covers(s, x)
    ensures Disjoint(s) ==> Disjoint(Turned(s))
  {
    var t := Turned(s);
    if Covers(s, x) {
      var i :| 0 <= i < |s| && In(s[i], x);
      assert In(t[if i == |s| - 1 then 0 else i + 1], x);
    }
    if Covers(t, x) {
      var i :| 0 <= i < |t| && In(t[i], x);
      assert In(s[Pred(i, |s|)], x);
    }
  }

  lemma WithoutCovers(s: seq<HeapBlock>, i: nat, x: nat)
    requires Disjoint(s) && i < |s|
    ensures Covers(Cut(s, i), x) <==> Covers(s, x) && !In(s[i], x)
  {
    if Covers(s, x) && !In(s[i], x) { CutHas(s, i, x); }
    var r := Cut(s, i);
    if Covers(r, x) {
      var j :| 0 <= j < |r| && In(r[j], x);
      var k := if j < i then j else j + 1;
      assert In(s[k], x);
      Apart2(s, i, k);
    }
  }

  lemma Apart2(s: seq<HeapBlock>, i: nat, j: nat)
    requires Disjoint(s) && i < |s| && j < |s| && i != j
    ensures End(s[i]) <= s[j].addr || End(s[j]) <= s[i].addr
  {
  }

  lemma ReplaceCovers(s: seq<HeapBlock>, i: nat, a: nat, n: nat, x: nat)
    requires i < |s| && s[i].addr == a + n
    ensures Covers(s[i := HeapBlock(a, n + s[i].size)], x) <==> Covers(s, x) || a <= x < a + n
  {
    var r := s[i := HeapBlock(a, n + s[i].size)];
    if Covers(s, x) {
      var j :| 0 <= j < |s| && In(s[j], x);
      assert In(r[j], x);
    }
    if Covers(r, x) {
      var j :| 0 <= j < |r| && In(r[j], x);
      assert j != i ==> In(s[j], x);
      assert j == i ==> In(s[i], x) || a <= x < a + n;
    }
    if a <= x < a + n { assert In(r[i], x); }
  }

  lemma BridgedCovers(s: seq<HeapBlock>, k: nat, a: nat, n: nat, x: nat)
    requires Disjoint(s) && 0 < k < |s| && End(s[k - 1]) == a && s[k].addr == a + n
    ensures Covers(Bridged(s, k, n), x) <==> Covers(s, x) || a <= x < a + n
  {
    var w := Cut(s, k);
    WithoutCovers(s, k, x);
    assert w[k - 1] == s[k - 1];
    GrownCovers(w, k - 1, n + s[k].size, x);
    assert In(s[k], x) ==> Covers(s, x);
  }

  /** Insertion adds exactly the bytes of the run. */
  lemma RingInsertCovers(s: seq<HeapBlock>, a: nat, n: nat, x: nat)
    requires Disjoint(s)
    ensures Covers(RingInsert(s, a, n), x) <==> Covers(s, x) || a <= x < a + n
  {
    hide Covers, Disjoint, Grown, Bridged;
    if s == [] {
      OneBlock(a, n, x);
    } else {
      var i := StopAt(s, a);
      var p := Pred(i, |s|);
      if End(s[p]) == a {
        if s[i].addr == a + n && i != p {
          if i == 0 {
            TurnedKeeps(s, x);
            BridgedCovers(Turned(s), 1, a, n, x);
          } else {
            BridgedCovers(s, i, a, n, x);
          }
        } else {
          GrownCovers(s, p, n, x);
        }
      } else if s[i].addr == a + n {
        ReplaceCovers(s, i, a, n, x);
      } else {
        PutCovers(s, i, HeapBlock(a, n), x);
      }
    }
  }

  lemma OneBlock(a: nat, n: nat, x: nat)
    ensures !Covers([], x) && (Covers([HeapBlock(a, n)], x) <==> a <= x < a + n)
  {
    assert In([HeapBlock(a, n)][0], x) <==> a <= x < a + n;
  }

  // ----- Well-formedness -----

  /** A run that is not free is disjoint from every block. */
  lemma RunApart(s: seq<HeapBlock>, a: nat, n: nat, align: nat)
    requires align > 0 && Ring(s, align) && Outside(s, a, n) && n > 0
    ensures forall j :: 0 <= j < |s| ==> End(s[j]) <= a || a + n <= s[j].addr
  {
    forall j | 0 <= j < |s|
      ensures End(s[j]) <= a || a + n <= s[j].addr
    {
      var x := if s[j].addr < a then a else s[j].addr;
      assert a <= x < a + n ==> !Covers(s, x);
      assert In(s[j], x) ==> Covers(s, x);
    }
  }

  lemma GrownRing(s: seq<HeapBlock>, i: nat, n: nat, align: nat)
    requires align > 0 && Ring(s, align) && i < |s|
    requires forall j :: 0 <= j < |s| ==> End(s[j]) <= End(s[i]) || End(s[i]) + n <= s[j].addr
    ensures Ring(Grown(s, i, n), align)
  {
    var g := Grown(s, i, n);
    forall j, k | 0 <= j < k < |g|
      ensures End(g[j]) <= g[k].addr || End(g[k]) <= g[j].addr
    {
      Apart2(s, j, k);
    }
  }

  lemma WithoutRing(s: seq<HeapBlock>, i: nat, align: nat)
    requires align > 0 && Ring(s, align) && i < |s|
    ensures Ring(Cut(s, i), align)
  {
  }

  lemma BridgedRing(s: seq<HeapBlock>, k: nat, a: nat, n: nat, align: nat)
    requires align > 0 && Ring(s, align) && 0 < k < |s| && End(s[k - 1]) == a && s[k].addr == a + n && n > 0
    requires forall j :: 0 <= j < |s| ==> End(s[j]) <= a || a + n <= s[j].addr
    ensures Ring(Bridged(s, k, n), align)
  {
    var w := Cut(s, k);
    WithoutRing(s, k, align);
    forall j | 0 <= j < |w|
      ensures End(w[j]) <= a || a + n + s[k].size <= w[j].addr
    {
      var m := if j < k then j else j + 1;
      assert w[j] == s[m];
      Apart2(s, k, m);
    }
    assert w[k - 1] == s[k - 1];
    GrownRing(w, k - 1, n + s[k].size, align);
  }

  lemma ExtendRing(s: seq<HeapBlock>, a: nat, n: nat, align: nat)
    requires align > 0 && Ring(s, align) && s != [] && PoolBlock(HeapBlock(a, n), align)
    requires forall j :: 0 <= j < |s| ==> End(s[j]) <= a || a + n <= s[j].addr
    requires End(s[Pred(StopAt(s, a), |s|)]) == a
    ensures Ring(RingInsert(s, a, n), align) && RingInsert(s, a, n) != []
  {
    hide Grown, Bridged;
    var i := StopAt(s, a);
    var p := Pred(i, |s|);
    if s[i].addr == a + n && i != p {
      if i == 0 {
        TurnedRing(s, align);
        BridgedRing(Turned(s), 1, a, n, align);
        BridgedSize(Turned(s), 1, n);
      } else {
        BridgedRing(s, i, a, n, align);
        BridgedSize(s, i, n);
      }
    } else {
      GrownRing(s, p, n, align);
      GrownSize(s, p, n);
    }
  }

  lemma TurnedRing(s: seq<HeapBlock>, align: nat)
    requires align > 0 && Ring(s, align) && s != []
    ensures Ring(Turned(s), align)
  {
    TurnedKeeps(s, 0);
  }

  /** The ring stays well-formed when a run that is not free comes back. */
  lemma RingInsertRing(s: seq<HeapBlock>, a: nat, n: nat, align: nat)
    requires align > 0 && Ring(s, align) && Outside(s, a, n) && PoolBlock(HeapBlock(a, n), align)
    ensures Ring(RingInsert(s, a, n), align) && RingInsert(s, a, n) != []
  {
    hide Outside, Bridged, Grown, Disjoint;
    RunApart(s, a, n, align);
    if s == [] {
      OneRing(HeapBlock(a, n), align);
    } else {
      var i := StopAt(s, a);
      if End(s[Pred(i, |s|)]) == a {
        ExtendRing(s, a, n, align);
      } else if s[i].addr == a + n {
        ReplacedRing(s, i, a, n, align);
      } else {
        PutRing(s, i, HeapBlock(a, n), align);
      }
    }
  }

  lemma OneRing(b: HeapBlock, align: nat)
    requires align > 0 && PoolBlock(b, align)
    ensures Ring([b], align)
  {
  }

  lemma BridgedSize(s: seq<HeapBlock>, k: nat, n: nat)
    requires 0 < k < |s|
    ensures Bridged(s, k, n) != []
  {
  }

  lemma GrownSize(s: seq<HeapBlock>, k: nat, n: nat)
    requires k < |s|
    ensures Grown(s, k, n) != []
  {
  }

  lemma ReplacedRing(s: seq<HeapBlock>, i: nat, a: nat, n: nat, align: nat)
    requires align > 0 && Ring(s, align) && i < |s| && s[i].addr == a + n && PoolBlock(HeapBlock(a, n), align)
    requires forall j :: 0 <= j < |s| ==> End(s[j]) <= a || a + n <= s[j].addr
    ensures Ring(s[i := HeapBlock(a, n + s[i].size)], align)
  {
    var r := s[i := HeapBlock(a, n + s[i].size)];
    forall j, k | 0 <= j < k < |r|
      ensures End(r[j]) <= r[k].addr || End(r[k]) <= r[j].addr
    {
      Apart2(s, j, k);
    }
  }

  lemma PutRing(s: seq<HeapBlock>, i: nat, b: HeapBlock, align: nat)
    requires align > 0 && Ring(s, align) && i <= |s| && PoolBlock(b, align)
    requires forall j :: 0 <= j < |s| ==> End(s[j]) <= b.addr || End(b) <= s[j].addr
    ensures Ring(InsertAt(s, i, b), align)
  {
    var p := InsertAt(s, i, b);
    forall j, k | 0 <= j < k < |p|
      ensures End(p[j]) <= p[k].addr || End(p[k]) <= p[j].addr
    {
      if j != i && k != i {
        Apart2(s, if j < i then j else j - 1, if k < i then k else k - 1);
      } else if j == i {
        assert p[k] == s[k - 1];
      } else {
        assert p[j] == s[j];
      }
    }
  }

  // ----- pmmGet -----

  /** The ring without block i, or with n bytes cut off its begin if a header remains. */
  function RingTake(s: seq<HeapBlock>, i: nat, n: nat): seq<HeapBlock>
    requires i < |s| && s[i].size >= n
  {
    if s[i].size >= n + MPOOL_NINSIZE then s[i := HeapBlock(s[i].addr + n, s[i].size - n)] else Cut(s, i)
  }

  /** What an allocation of n bytes takes from block b. */
  function Used(b: HeapBlock, n: nat): nat {
    if b.size >= n + MPOOL_NINSIZE then n else b.size
  }

  /** Exactly the bytes taken leave the ring; there are less than a header more than requested. */
  lemma RingTakeKeeps(s: seq<HeapBlock>, i: nat, n: nat, align: nat)
    requires align > 0 && Ring(s, align) && i < |s| && s[i].size >= n && n % align == 0
    ensures Ring(RingTake(s, i, n), align) && n <= Used(s[i], n) < n + MPOOL_NINSIZE
    ensures forall x: nat ::
              Covers(RingTake(s, i, n), x) <==> Covers(s, x) && !(s[i].addr <= x < s[i].addr + Used(s[i], n))
    ensures forall x: nat :: s[i].addr <= x < s[i].addr + Used(s[i], n) ==> Covers(s, x)
  {
    var r, b := RingTake(s, i, n), s[i];
    forall x: nat
      ensures b.addr <= x < b.addr + Used(b, n) ==> Covers(s, x)
    {
      assert In(s[i], x) <==> b.addr <= x < b.addr + b.size;
    }
    if b.size >= n + MPOOL_NINSIZE {
      TrimmedRing(s, i, n, align);
      forall x: nat
        ensures Covers(r, x) <==> Covers(s, x) && !(b.addr <= x < b.addr + n)
      {
        TrimmedCovers(s, i, n, x);
      }
    } else {
      WithoutRing(s, i, align);
      forall x: nat
        ensures Covers(r, x) <==> Covers(s, x) && !(b.addr <= x < b.addr + b.size)
      {
        WithoutCovers(s, i, x);
      }
    }
  }

  lemma TrimmedRing(s: seq<HeapBlock>, i: nat, n: nat, align: nat)
    requires align > 0 && Ring(s, align) && i < |s| && s[i].size >= n + MPOOL_NINSIZE && n % align == 0
    ensures Ring(s[i := HeapBlock(s[i].addr + n, s[i].size - n)], align)
  {
    var r := s[i := HeapBlock(s[i].addr + n, s[i].size - n)];
    Arith.MultipleSum(s[i].addr, n, align);
    forall j, k | 0 <= j < k < |r|
      ensures End(r[j]) <= r[k].addr || End(r[k]) <= r[j].addr
    {
      Apart2(s, j, k);
    }
  }

  lemma TrimmedCovers(s: seq<HeapBlock>, i: nat, n: nat, x: nat)
    requires Disjoint(s) && i < |s| && s[i].size >= n
    ensures Covers(s[i := HeapBlock(s[i].addr + n, s[i].size - n)], x) <==>
              Covers(s, x) && !(s[i].addr <= x < s[i].addr + n)
  {
    var r := s[i := HeapBlock(s[i].addr + n, s[i].size - n)];
    if Covers(s, x) && !(s[i].addr <= x < s[i].addr + n) {
      var j :| 0 <= j < |s| && In(s[j], x);
      assert In(r[j], x);
    }
    if Covers(r, x) {
      var j :| 0 <= j < |r| && In(r[j], x);
      assert In(s[j], x);
      if j != i { Apart2(s, i, j); }
    }
  }

  // ----- Exactness -----

  ghost predicate SizesAligned(s: seq<HeapBlock>, align: nat) {
    forall i :: 0 <= i < |s| ==> Arith.IsMultiple(s[i].size, align)
  }

  /** With an alignment of at least a header's size, no allocation loses a byte. */
  lemma TakeIsExact(s: seq<HeapBlock>, i: nat, n: nat, align: nat)
    requires align >= MPOOL_NINSIZE && SizesAligned(s, align) && i < |s| && s[i].size >= n && Arith.IsMultiple(n, align)
    ensures Used(s[i], n) == n && SizesAligned(RingTake(s, i, n), align)
  {
    hide Arith.IsMultiple;
    Arith.MultipleDifference(s[i].size, n, align);
  }

  lemma InsertIsExact(s: seq<HeapBlock>, a: nat, n: nat, align: nat)
    requires SizesAligned(s, align) && Arith.IsMultiple(n, align)
    ensures SizesAligned(RingInsert(s, a, n), align)
  {
    hide Arith.IsMultiple, Bridged;
    if s != [] {
      var i := StopAt(s, a);
      var p := Pred(i, |s|);
      Arith.MultipleSum(s[p].size, n, align);
      Arith.MultipleSum(n, s[i].size, align);
      if i == 0 && |s| > 1 {
        BridgedAligned(Turned(s), 1, n, align);
      } else if i > 0 {
        BridgedAligned(s, i, n, align);
      }
    }
  }

  lemma BridgedAligned(s: seq<HeapBlock>, k: nat, n: nat, align: nat)
    requires 0 < k < |s| && SizesAligned(s, align) && Arith.IsMultiple(n, align)
    ensures SizesAligned(Bridged(s, k, n), align)
  {
    hide Arith.IsMultiple, Bridged;
    Arith.MultipleSum(n, s[k].size, align);
    Arith.MultipleSum(s[k - 1].size, n + s[k].size, align);
    BridgedSizes(s, k, n);
    var b := Bridged(s, k, n);
    forall j | 0 <= j < |b|
      ensures Arith.IsMultiple(b[j].size, align)
    {
      assert b[j].size == if j == k - 1 then s[j].size + (n + s[k].size) else s[if j < k then j else j + 1].size;
    }
  }

  lemma BridgedSizes(s: seq<HeapBlock>, k: nat, n: nat)
    requires 0 < k < |s|
    ensures |Bridged(s, k, n)| == |s| - 1
    ensures forall j :: 0 <= j < |s| - 1 ==>
              Bridged(s, k, n)[j].size == if j == k - 1 then s[j].size + (n + s[k].size)
                                          else s[if j < k then j else j + 1].size
  {
  }

  /** Giving an allocation back makes the same bytes free again exactly if its block had no more than the
      request, or room for a header behind it; the bytes beyond are lost. */
  lemma FreeRestoresBytes(s: seq<HeapBlock>, i: nat, n: nat, align: nat)
    requires align > 0 && Ring(s, align) && i < |s| && s[i].size >= n && n % align == 0
    ensures var r := RingInsert(RingTake(s, i, n), s[i].addr, n);
            (forall x: nat :: Covers(r, x) <==> Covers(s, x)) <==> s[i].size == n || s[i].size >= n + MPOOL_NINSIZE
  {
    hide Covers, RingInsert, RingTake, Disjoint;
    var t, a := RingTake(s, i, n), s[i].addr;
    RingTakeKeeps(s, i, n, align);
    forall x: nat
      ensures Covers(RingInsert(t, a, n), x) <==> Covers(t, x) || a <= x < a + n
    {
      RingInsertCovers(t, a, n, x);
    }
    assert Covers(s, a + n) || Used(s[i], n) == n;
  }

  /** A pool of blocks aligned to 4 bytes loses 12 of them. */
  lemma SmallAlignmentLoses()
    ensures var s := [HeapBlock(32, 28)];
            Ring(s, 4) && RingTake(s, 0, 16) == [] && RingInsert([], 32, 16) == [HeapBlock(32, 16)]
  {
    assert Cut([HeapBlock(32, 28)], 0) == [];
  }

  /** Nothing is lost, and what is free or live is made of whole units of the alignment. */
  ghost predicate Lossless(s: seq<HeapBlock>, live: map<nat, nat>, lost: set<nat>, align: nat) {
    SizesAligned(s, align) && lost == {} && forall a :: a in live ==> Arith.IsMultiple(live[a], align)
  }

  lemma LosslessTake(s: seq<HeapBlock>, live: map<nat, nat>, lost: set<nat>, i: nat, n: nat, align: nat)
    requires align >= MPOOL_NINSIZE && Lossless(s, live, lost, align) && i < |s| && s[i].size >= n && n % align == 0
    ensures Lossless(RingTake(s, i, n), live[s[i].addr := n], lost + Bytes(s[i].addr + n, Used(s[i], n) - n), align)
  {
    TakeIsExact(s, i, n, align);
  }

  lemma LosslessFree(s: seq<HeapBlock>, live: map<nat, nat>, lost: set<nat>, a: nat, align: nat)
    requires Lossless(s, live, lost, align) && a in live
    ensures Lossless(RingInsert(s, a, live[a]), live - {a}, lost, align)
  {
    InsertIsExact(s, a, live[a], align);
  }

  lemma LosslessStart(a: nat, b: nat, align: nat)
    requires align > 0 && a <= b && a % align == 0 && b % align == 0
    ensures Lossless([HeapBlock(a, b - a)], map[], {}, align)
  {
    Arith.MultipleDifference(b, a, align);
  }

  // ----- Owners -----

  /** MemoryBlockAlloc from block i of the ring. */
  lemma OwnedRingTake(s: seq<HeapBlock>, live: map<nat, nat>, lost: set<nat>, arena: set<nat>, i: nat, n: nat,
                      align: nat)
    requires align > 0 && Ring(s, align) && LiveApart(live) && Owned(s, live, lost, arena)
    requires i < |s| && s[i].size >= n > 0 && n % align == 0
    ensures Ring(RingTake(s, i, n), align)
    ensures var a, u := s[i].addr, Used(s[i], n);
            && u >= n && a !in live && LiveApart(live[a := n])
            && Owned(RingTake(s, i, n), live[a := n], lost + Bytes(a + n, u - n), arena)
  {
    hide Covers, Lives, RingTake, Disjoint;
    var a, u := s[i].addr, Used(s[i], n);
    RingTakeKeeps(s, i, n, align);
    assert forall x: nat :: a <= x < a + n ==> Covers(s, x);
    LiveApartMore(live, a, n);
    forall x: nat
      ensures Lives(live[a := n], x) <==> Lives(live, x) || a <= x < a + n
    {
      LivesMore(live, a, n, x);
    }
  }

  /** MemoryBlockFree. */
  lemma OwnedRingFree(s: seq<HeapBlock>, live: map<nat, nat>, lost: set<nat>, arena: set<nat>, a: nat, align: nat)
    requires align > 0 && Ring(s, align) && LiveApart(live) && Owned(s, live, lost, arena)
    requires a in live && PoolBlock(HeapBlock(a, live[a]), align)
    ensures Outside(s, a, live[a]) && Ring(RingInsert(s, a, live[a]), align) && RingInsert(s, a, live[a]) != []
    ensures LiveApart(live - {a}) && Owned(RingInsert(s, a, live[a]), live - {a}, lost, arena)
  {
    hide Covers, Lives, RingInsert, Disjoint;
    var n := live[a];
    forall x: nat
      ensures Lives(live - {a}, x) <==> Lives(live, x) && !(a <= x < a + n)
      ensures a <= x < a + n ==> Lives(live, x)
      ensures Covers(RingInsert(s, a, n), x) <==> Covers(s, x) || a <= x < a + n
    {
      LivesLess(live, a, x);
      LiveByte(live, a, x);
      RingInsertCovers(s, a, n, x);
    }
    RingInsertRing(s, a, n, align);
  }
}
