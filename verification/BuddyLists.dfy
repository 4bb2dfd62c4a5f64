/** What the buddy allocator computes, as functions on its eleven free lists, and the proof that
    the lists are at all times a function of the set of free pages. Blocks and ranges are counted
    in pages: a list of order k holds first pages, and page p lies in block Index(p, k). */
module BuddyLists {
  import opened Utils
  import opened Arith
  import opened BuddyPages

  /** The free buddy of block a of order k: the block after a left half, the one before a right half. */
  function FreeBuddy(L: seq<seq<nat>>, a: nat, k: nat): Option<nat>
    requires |L| == MAX_ORDER + 1 && k <= MAX_ORDER
  {
    if k < MAX_ORDER && Aligned(a, k + 1) && a + Pow2(k) in L[k] then Some(a + Pow2(k))
    else if k < MAX_ORDER && a >= Pow2(k) && Aligned(a - Pow2(k), k + 1) && a - Pow2(k) in L[k] then Some(a - Pow2(k))
    else None
  }

  /** Merge the block a of order k with its free buddy, again and again, and file the result. */
  function InsertMerge(L: seq<seq<nat>>, a: nat, k: nat): (r: seq<seq<nat>>)
    requires |L| == MAX_ORDER + 1 && k <= MAX_ORDER
    ensures |r| == |L|
    decreases MAX_ORDER - k
  {
    match FreeBuddy(L, a, k)
    case Some(b) => InsertMerge(L[k := Remove(L[k], b)], if a < b then a else b, k + 1)
    case None => L[k := SortedInsert(L[k], a)]
  }

  /** A block taken from the lists: its first page and the lists that remain. */
  datatype Taken = Taken(page: nat, lists: seq<seq<nat>>)

  /** Take a block of order k, splitting the first block of the next orders when list k is empty. */
  function TakeFrom(L: seq<seq<nat>>, k: nat): (r: Option<Taken>)
    requires |L| == MAX_ORDER + 1 && k <= MAX_ORDER
    ensures r.Some? ==> |r.value.lists| == |L|
    decreases MAX_ORDER - k
  {
    if L[k] != [] then Some(Taken(L[k][0], L[k := L[k][1..]]))
    else if k == MAX_ORDER then None
    else
      match TakeFrom(L, k + 1)
      case None => None
      case Some(Taken(a, L1)) => Some(Taken(a, L1[k := SortedInsert(L1[k], a + Pow2(k))]))
  }

  /** The exponent of two in n. */
  function Exp2(n: nat): (e: nat)
    requires n > 0
  {
    if n % 2 == 1 then 0 else 1 + Exp2(n / 2)
  }

  /** The order of the largest block that may start at page p, at most MAX_ORDER. */
  function OrderOf(p: nat): (k: nat)
    ensures k <= MAX_ORDER
  {
    if p == 0 then 0 else if Exp2(p) < MAX_ORDER then Exp2(p) else MAX_ORDER
  }

  /** The base-2 logarithm, rounded down. */
  function Log(n: nat): nat {
    if n < 2 then 0 else 1 + Log(n / 2)
  }

  /** The largest order of a block that fits into size pages, at most MAX_ORDER. */
  function MaxOrderOf(size: nat): (k: nat)
    ensures k <= MAX_ORDER
  {
    if Log(size) < MAX_ORDER then Log(size) else MAX_ORDER
  }

  /** The order of the block that a free cuts off next. */
  function ChunkOrder(a: nat, size: nat): (k: nat)
    ensures k <= MAX_ORDER
  {
    if MaxOrderOf(size) >= OrderOf(a) then OrderOf(a) else MaxOrderOf(size)
  }

  /** Hand a page range back, cut greedily into aligned blocks. */
  function FreeRange(L: seq<seq<nat>>, a: nat, size: nat): (r: seq<seq<nat>>)
    requires |L| == MAX_ORDER + 1
    ensures |r| == |L|
    decreases size
  {
    var k := ChunkOrder(a, size);
    if size == 0 then L
    else FreeRange(InsertMerge(L, a, k), a + Pow2(k), if Pow2(k) <= size then size - Pow2(k) else 0)
  }

  /** The n pages from page p on. */
  function PageRun(p: nat, n: nat): set<nat> {
    if n == 0 then {} else PageRun(p, n - 1) + {p + n - 1}
  }

  // ----- Arithmetic of blocks -----

  /** Aligned and Index in closed form. */
  lemma {:induction false} AlignedIsMultiple(a: nat, k: nat)
    ensures Aligned(a, k) <==> a % Pow2(k) == 0
  {
    if k > 0 {
      IndexIsDiv(a, k - 1);
      AlignedIsMultiple(a, k - 1);
      Doubled(a, Pow2(k - 1), Pow2(k));
    }
  }

  lemma {:induction false} FirstPageAligned(q: nat, k: nat)
    ensures Aligned(FirstPage(k, q), k) && Index(FirstPage(k, q), k) == q
    decreases k
  {
    if k > 0 {
      FirstPageAligned(2 * q, k - 1);
    }
  }

  lemma {:induction false} SameBlock(a: nat, b: nat, k: nat)
    requires Aligned(a, k) && Aligned(b, k) && Index(a, k) == Index(b, k)
    ensures a == b
  {
    if k > 0 {
      SameBlock(a, b, k - 1);
    }
  }

  lemma {:induction false} NextBlock(a: nat, k: nat)
    requires Aligned(a, k)
    ensures Aligned(a + Pow2(k), k) && Index(a + Pow2(k), k) == Index(a, k) + 1
    decreases k
  {
    if k > 0 {
      NextBlock(a, k - 1);
      NextBlock(a + Pow2(k - 1), k - 1);
    }
  }

  lemma {:induction false} PreviousBlock(a: nat, k: nat)
    requires Aligned(a, k) && Index(a, k) >= 1
    ensures a >= Pow2(k) && Aligned(a - Pow2(k), k) && Index(a - Pow2(k), k) == Index(a, k) - 1
    decreases k
  {
    if k > 0 {
      PreviousBlock(a, k - 1);
      PreviousBlock(a - Pow2(k - 1), k - 1);
    }
  }

  /** The blocks after and before an aligned one. */
  lemma Neighbours(a: nat, k: nat)
    requires Aligned(a, k)
    ensures Aligned(a + Pow2(k), k) && Index(a + Pow2(k), k) == Index(a, k) + 1
    ensures a >= Pow2(k) <==> Index(a, k) >= 1
    ensures a >= Pow2(k) ==> Aligned(a - Pow2(k), k) && Index(a - Pow2(k), k) == Index(a, k) - 1
  {
    NextBlock(a, k);
    if Index(a, k) >= 1 {
      PreviousBlock(a, k);
    } else if a >= Pow2(k) {
      FirstPageAligned(0, k);
      ZeroAddress(k);
      SameBlock(a, 0, k);
    }
  }

  lemma {:induction false} ZeroAddress(k: nat)
    ensures FirstPage(k, 0) == 0
  {
    if k > 0 {
      ZeroAddress(k - 1);
    }
  }

  /** A block is its two halves. */
  lemma Halves(k: nat, p: nat)
    ensures Block(k + 1, p) == Block(k, 2 * p) + Block(k, 2 * p + 1)
    ensures Block(k, 2 * p) !! Block(k, 2 * p + 1)
  {
    InBlock(k + 1, p);
    InBlock(k, 2 * p);
    InBlock(k, 2 * p + 1);
  }

  // ----- Insertion keeps the lists canonical -----

  function BuddyOf(q: nat): nat {
    if q % 2 == 0 then q + 1 else q - 1
  }

  lemma BuddyHalves(k: nat, q: nat)
    ensures Block(k + 1, q / 2) == Block(k, q) + Block(k, BuddyOf(q)) && Block(k, q) !! Block(k, BuddyOf(q))
    ensures BuddyOf(q) / 2 == q / 2 && BuddyOf(q) != q
  {
    Halves(k, q / 2);
  }

  /** A free buddy of a block that is not free is maximal. */
  lemma BuddyMaximal(F: set<nat>, k: nat, q: nat)
    requires k < MAX_ORDER && F !! Block(k, q) && WhollyFree(F, k, BuddyOf(q))
    ensures Maximal(F, k, BuddyOf(q))
  {
    BuddyHalves(k, q);
    FirstPageIn(k, q);
    InBlock(k, q);
    InBlock(k + 1, q / 2);
  }

  /** Without a free buddy the parent does not become free. */
  lemma ParentNotFree(F: set<nat>, k: nat, q: nat)
    requires k < MAX_ORDER && !WhollyFree(F, k, BuddyOf(q))
    ensures !WhollyFree(F + Block(k, q), k + 1, q / 2)
  {
    var x: nat :| Index(x, k) == BuddyOf(q) && x !in F;
    BuddyHalves(k, q);
    InBlock(k, q);
    assert Index(x, k + 1) == q / 2;
  }

  /** A block with a page that is not free is in no list. */
  lemma NotListed(L: seq<seq<nat>>, F: set<nat>, a: nat, k: nat)
    requires Canonical(L, F) && k <= MAX_ORDER && F !! Block(k, Index(a, k))
    ensures a !in L[k]
  {
    var q := Index(a, k);
    FirstPageIn(k, q);
    InBlock(k, q);
    CanonicalAt(L, F, k);
  }

  lemma CanonicalAdd(L: seq<seq<nat>>, F: set<nat>, a: nat, k: nat)
    requires Canonical(L, F) && k <= MAX_ORDER && Aligned(a, k)
    requires F !! Block(k, Index(a, k))
    requires k < MAX_ORDER ==> !WhollyFree(F + Block(k, Index(a, k)), k + 1, Index(a, k) / 2)
    ensures Canonical(L[k := SortedInsert(L[k], a)], F + Block(k, Index(a, k)))
  {
    var q := Index(a, k);
    var G, L' := F + Block(k, q), L[k := SortedInsert(L[k], a)];
    NotListed(L, F, a, k);
    CanonicalAt(L, F, k);
    SortedInsertSorted(L[k], a);
    forall j | 0 <= j <= MAX_ORDER
      ensures CanonicalList(L'[j], G, j)
    {
      CanonicalAt(L, F, j);
      forall b: nat
        ensures b in L'[j] <==> Aligned(b, j) && Maximal(G, j, Index(b, j))
      {
        AddMaximal(F, k, q, j, Index(b, j));
        if j == k && Aligned(b, k) && Index(b, k) == q {
          SameBlock(a, b, k);
        }
      }
    }
    CanonicalIntro(L', G);
  }

  lemma CanonicalRemove(L: seq<seq<nat>>, F: set<nat>, a: nat, k: nat)
    requires Canonical(L, F) && k <= MAX_ORDER && a in L[k]
    ensures Canonical(L[k := Remove(L[k], a)], F - Block(k, Index(a, k)))
  {
    CanonicalAt(L, F, k);
    var q := Index(a, k);
    var G, L' := F - Block(k, q), L[k := Remove(L[k], a)];
    RemoveSorted(L[k], a);
    forall j | 0 <= j <= MAX_ORDER
      ensures CanonicalList(L'[j], G, j)
    {
      CanonicalAt(L, F, j);
      forall b: nat
        ensures b in L'[j] <==> Aligned(b, j) && Maximal(G, j, Index(b, j))
      {
        RemoveMaximal(F, k, q, j, Index(b, j));
        if j == k && Aligned(b, k) && Index(b, k) == q {
          SameBlock(a, b, k);
        }
      }
    }
    CanonicalIntro(L', G);
  }

  lemma BuddyListed(L: seq<seq<nat>>, F: set<nat>, q: nat, b: nat, k: nat)
    requires Canonical(L, F) && k < MAX_ORDER && F !! Block(k, q)
    requires Aligned(b, k) && Index(b, k) == BuddyOf(q)
    ensures b in L[k] <==> WhollyFree(F, k, BuddyOf(q))
  {
    CanonicalAt(L, F, k);
    if WhollyFree(F, k, BuddyOf(q)) {
      BuddyMaximal(F, k, q);
    }
  }

  lemma LeftHalf(L: seq<seq<nat>>, a: nat, k: nat)
    requires |L| == MAX_ORDER + 1 && k < MAX_ORDER && Aligned(a, k) && Index(a, k) % 2 == 0
    ensures FreeBuddy(L, a, k) == if a + Pow2(k) in L[k] then Some(a + Pow2(k)) else None
    ensures Aligned(a + Pow2(k), k) && Index(a + Pow2(k), k) == Index(a, k) + 1
  {
    Neighbours(a, k);
  }

  lemma RightHalf(L: seq<seq<nat>>, a: nat, k: nat)
    requires |L| == MAX_ORDER + 1 && k < MAX_ORDER && Aligned(a, k) && Index(a, k) % 2 == 1
    ensures a >= Pow2(k) && Aligned(a - Pow2(k), k + 1) && Index(a - Pow2(k), k) == Index(a, k) - 1
    ensures FreeBuddy(L, a, k) == if a - Pow2(k) in L[k] then Some(a - Pow2(k)) else None
  {
    Neighbours(a, k);
  }

  /** The lists hold the buddy exactly when all its pages are free. */
  lemma FreeBuddyIff(L: seq<seq<nat>>, F: set<nat>, a: nat, k: nat)
    requires Canonical(L, F) && k < MAX_ORDER && Aligned(a, k) && F !! Block(k, Index(a, k))
    ensures FreeBuddy(L, a, k).Some? <==> WhollyFree(F, k, BuddyOf(Index(a, k)))
    ensures FreeBuddy(L, a, k).Some? ==>
              var b := FreeBuddy(L, a, k).value;
              && b in L[k] && Index(b, k) == BuddyOf(Index(a, k)) && a != b
              && Aligned(if a < b then a else b, k + 1)
  {
    var q := Index(a, k);
    if q % 2 == 0 {
      LeftHalf(L, a, k);
      BuddyListed(L, F, q, a + Pow2(k), k);
    } else {
      RightHalf(L, a, k);
      BuddyListed(L, F, q, a - Pow2(k), k);
    }
  }

  /** Inserting a block of pages that are not free keeps the lists canonical, merges included. */
  lemma {:induction false} InsertCanonical(L: seq<seq<nat>>, F: set<nat>, a: nat, k: nat)
    requires Canonical(L, F) && k <= MAX_ORDER && Aligned(a, k) && F !! Block(k, Index(a, k))
    ensures Canonical(InsertMerge(L, a, k), F + Block(k, Index(a, k)))
    decreases MAX_ORDER - k
  {
    if k < MAX_ORDER {
      FreeBuddyIff(L, F, a, k);
    }
    match FreeBuddy(L, a, k)
    case None =>
      if k < MAX_ORDER {
        ParentNotFree(F, k, Index(a, k));
      }
      CanonicalAdd(L, F, a, k);
    case Some(b) =>
      var p := if a < b then a else b;
      var G := F - Block(k, Index(b, k));
      assert F + Block(k, Index(a, k)) == G + Block(k + 1, Index(p, k + 1)) && G !! Block(k + 1, Index(p, k + 1)) by {
        BuddyHalves(k, Index(a, k));
        InBlock(k, Index(b, k));
        assert Block(k, Index(b, k)) <= F;
      }
      CanonicalRemove(L, F, b, k);
      InsertCanonical(L[k := Remove(L[k], b)], G, p, k + 1);
  }

  // ----- Allocation -----

  /** A sorted list without its head. */
  lemma RemoveHead(s: seq<nat>)
    requires s != []
    ensures Remove(s, s[0]) == s[1..]
  {
  }

  /** Some block of order k is wholly free. */
  ghost predicate HasFree(F: set<nat>, k: nat) {
    exists q: nat :: WhollyFree(F, k, q)
  }

  /** A get fails exactly when no aligned run is wholly free; otherwise it takes such a run and
      leaves lists that are canonical for the free pages that remain. */
  lemma {:induction false} TakeCanonical(L: seq<seq<nat>>, F: set<nat>, k: nat)
    requires Canonical(L, F) && k <= MAX_ORDER
    ensures TakeFrom(L, k).None? <==> !HasFree(F, k)
    ensures TakeFrom(L, k).Some? ==>
              var Taken(a, L') := TakeFrom(L, k).value;
              Aligned(a, k) && WhollyFree(F, k, Index(a, k)) && Canonical(L', F - Block(k, Index(a, k)))
    decreases MAX_ORDER - k
  {
    CanonicalAt(L, F, k);
    if L[k] != [] {
      var a := L[k][0];
      RemoveHead(L[k]);
      assert a in L[k];
      CanonicalRemove(L, F, a, k);
    } else if k == MAX_ORDER {
      forall q: nat
        ensures !WhollyFree(F, k, q)
      {
        FirstPageAligned(q, k);
        assert FirstPage(k, q) !in L[k];
      }
    } else {
      TakeCanonical(L, F, k + 1);
      match TakeFrom(L, k + 1)
      case None => NoneBelow(L, F, k);
      case Some(Taken(a, L1)) => SplitCanonical(L1, F, a, k);
    }
  }

  /** No maximal block of order k and no free block of order k + 1: no free block of order k. */
  lemma NoneBelow(L: seq<seq<nat>>, F: set<nat>, k: nat)
    requires Canonical(L, F) && k < MAX_ORDER && L[k] == [] && !HasFree(F, k + 1)
    ensures !HasFree(F, k)
  {
    CanonicalAt(L, F, k);
    forall q: nat
      ensures !WhollyFree(F, k, q)
    {
      FirstPageAligned(q, k);
      assert FirstPage(k, q) !in L[k];
      assert !Maximal(F, k, q);
    }
  }

  /** Filing the right half of a block just taken. */
  lemma SplitCanonical(L1: seq<seq<nat>>, F: set<nat>, a: nat, k: nat)
    requires k < MAX_ORDER && Aligned(a, k + 1) && WhollyFree(F, k + 1, Index(a, k + 1))
    requires Canonical(L1, F - Block(k + 1, Index(a, k + 1)))
    ensures Aligned(a, k) && WhollyFree(F, k, Index(a, k))
    ensures Canonical(L1[k := SortedInsert(L1[k], a + Pow2(k))], F - Block(k, Index(a, k)))
  {
    var q := Index(a, k);
    var G := F - Block(k + 1, q / 2);
    NextBlock(a, k);
    assert WhollyFree(F, k, q);
    assert G + Block(k, q + 1) == F - Block(k, q) && G !! Block(k, q + 1) by {
      Halves(k, q / 2);
      InBlock(k + 1, q / 2);
      assert Block(k + 1, q / 2) <= F;
    }
    assert !WhollyFree(F - Block(k, q), k + 1, q / 2) by {
      FirstPageIn(k, q);
      InBlock(k + 1, q / 2);
    }
    CanonicalAdd(L1, G, a + Pow2(k), k);
  }

  // ----- Freeing a range -----

  /** The pages of an aligned block. */
  lemma {:induction false} BlockPages(a: nat, k: nat, x: nat)
    requires Aligned(a, k)
    ensures Index(x, k) == Index(a, k) <==> a <= x < a + Pow2(k)
    decreases k
  {
    if k > 0 {
      NextBlock(a, k - 1);
      BlockPages(a, k - 1, x);
      BlockPages(a + Pow2(k - 1), k - 1, x);
    }
  }

  lemma {:induction false} ExpOfIndex(n: nat, k: nat)
    requires n > 0 && k <= Exp2(n)
    ensures Index(n, k) > 0 && Exp2(Index(n, k)) == Exp2(n) - k
  {
    if k > 0 {
      ExpOfIndex(n, k - 1);
    }
  }

  lemma {:induction false} AlignedUpTo(a: nat, k: nat)
    requires a > 0
    ensures Aligned(a, k) <==> k <= Exp2(a)
  {
    if k > 0 {
      AlignedUpTo(a, k - 1);
      if k - 1 <= Exp2(a) {
        ExpOfIndex(a, k - 1);
      }
    }
  }

  lemma {:induction false} InPageRun(p: nat, n: nat)
    ensures forall x: nat :: x in PageRun(p, n) <==> p <= x < p + n
  {
    if n > 0 {
      InPageRun(p, n - 1);
    }
  }

  lemma BlockIsPages(a: nat, k: nat)
    requires Aligned(a, k)
    ensures Block(k, Index(a, k)) == PageRun(a, Pow2(k))
  {
    InBlock(k, Index(a, k));
    InPageRun(a, Pow2(k));
    forall x: nat
      ensures Index(x, k) == Index(a, k) <==> a <= x < a + Pow2(k)
    {
      BlockPages(a, k, x);
    }
  }

  lemma {:induction false} LogFits(n: nat, k: nat)
    requires n > 0
    ensures Pow2(k) <= n <==> k <= Log(n)
  {
    if n >= 2 && k > 0 {
      LogFits(n / 2, k - 1);
    }
  }

  /** The block cut off first is aligned and fits, and no larger one does. */
  lemma ChunkFits(a: nat, size: nat, k: nat)
    requires a > 0 && size > 0 && k <= MAX_ORDER
    ensures Aligned(a, k) && Pow2(k) <= size <==> k <= ChunkOrder(a, size)
  {
    AlignedUpTo(a, k);
    LogFits(size, k);
  }

  lemma PagesApart(F: set<nat>, a: nat, size: nat, n: nat)
    requires n <= size && F !! PageRun(a, size)
    ensures F !! PageRun(a, n) && (F + PageRun(a, n)) !! PageRun(a + n, size - n)
    ensures F + PageRun(a, size) == F + PageRun(a, n) + PageRun(a + n, size - n)
  {
    InPageRun(a, size);
    InPageRun(a, n);
    InPageRun(a + n, size - n);
  }

  lemma AddChunk(L: seq<seq<nat>>, F: set<nat>, a: nat, k: nat)
    requires Canonical(L, F) && k <= MAX_ORDER && Aligned(a, k) && F !! PageRun(a, Pow2(k))
    ensures Canonical(InsertMerge(L, a, k), F + PageRun(a, Pow2(k)))
  {
    BlockIsPages(a, k);
    InsertCanonical(L, F, a, k);
  }

  lemma FreeRangeStep(L: seq<seq<nat>>, a: nat, size: nat, k: nat)
    requires |L| == MAX_ORDER + 1 && size > 0 && k == ChunkOrder(a, size) && Pow2(k) <= size
    ensures FreeRange(L, a, size) == FreeRange(InsertMerge(L, a, k), a + Pow2(k), size - Pow2(k))
  {
  }

  /** Handing back pages that are not free leaves canonical lists, however the range is cut. */
  lemma {:induction false} FreeCanonical(L: seq<seq<nat>>, F: set<nat>, a: nat, size: nat)
    requires Canonical(L, F) && a > 0 && F !! PageRun(a, size)
    ensures Canonical(FreeRange(L, a, size), F + PageRun(a, size))
    decreases size
  {
    if size == 0 {
      FreeNothing(L, F, a);
    } else {
      var k := ChunkOrder(a, size);
      ChunkFits(a, size, k);
      PagesApart(F, a, size, Pow2(k));
      AddChunk(L, F, a, k);
      FreeCanonical(InsertMerge(L, a, k), F + PageRun(a, Pow2(k)), a + Pow2(k), size - Pow2(k));
      FreeRangeStep(L, a, size, k);
    }
  }

  lemma FreeNothing(L: seq<seq<nat>>, F: set<nat>, a: nat)
    requires |L| == MAX_ORDER + 1
    ensures FreeRange(L, a, 0) == L && F + PageRun(a, 0) == F
  {
  }

  // ----- Runs -----

  function EmptyLists(): (L: seq<seq<nat>>)
    ensures |L| == MAX_ORDER + 1
  {
    seq(MAX_ORDER + 1, _ => [])
  }

  lemma EmptyCanonical()
    ensures Canonical(EmptyLists(), {})
  {
    forall k, a: nat | 0 <= k <= MAX_ORDER
      ensures !Maximal({}, k, Index(a, k))
    {
      FirstPageIn(k, Index(a, k));
    }
    CanonicalIntro(EmptyLists(), {});
  }

  /** The lists hold nothing but the set of free pages. */
  lemma CanonicalUnique(L: seq<seq<nat>>, L': seq<seq<nat>>, F: set<nat>)
    requires Canonical(L, F) && Canonical(L', F)
    ensures L == L'
  {
    forall k | 0 <= k <= MAX_ORDER
      ensures L[k] == L'[k]
    {
      CanonicalAt(L, F, k);
      CanonicalAt(L', F, k);
      SortedUnique(L[k], L'[k]);
    }
  }

  datatype Op = Get(order: nat) | Free(page: nat, size: nat)

  function Step(L: seq<seq<nat>>, op: Op): (r: seq<seq<nat>>)
    requires |L| == MAX_ORDER + 1
    ensures |r| == |L|
  {
    match op
    case Free(a, size) => FreeRange(L, a, size)
    case Get(k) =>
      if k > MAX_ORDER then L
      else match TakeFrom(L, k)
        case None => L
        case Some(t) => t.lists
  }

  /** The free pages after a step. */
  function FreeAfter(L: seq<seq<nat>>, F: set<nat>, op: Op): set<nat>
    requires |L| == MAX_ORDER + 1
  {
    match op
    case Free(a, size) => F + PageRun(a, size)
    case Get(k) =>
      if k > MAX_ORDER then F
      else match TakeFrom(L, k)
        case None => F
        case Some(t) => F - Block(k, Index(t.page, k))
  }

  /** Callers free whole pages, and only pages that are not free. */
  predicate Legal(F: set<nat>, op: Op) {
    op.Free? ==> op.page > 0 && F !! PageRun(op.page, op.size)
  }

  function Run(L: seq<seq<nat>>, ops: seq<Op>): (r: seq<seq<nat>>)
    requires |L| == MAX_ORDER + 1
    ensures |r| == |L|
    decreases |ops|
  {
    if ops == [] then L else Run(Step(L, ops[0]), ops[1..])
  }

  function FreeAfterRun(L: seq<seq<nat>>, F: set<nat>, ops: seq<Op>): set<nat>
    requires |L| == MAX_ORDER + 1
    decreases |ops|
  {
    if ops == [] then F else FreeAfterRun(Step(L, ops[0]), FreeAfter(L, F, ops[0]), ops[1..])
  }

  predicate LegalRun(L: seq<seq<nat>>, F: set<nat>, ops: seq<Op>)
    requires |L| == MAX_ORDER + 1
    decreases |ops|
  {
    ops == [] || (Legal(F, ops[0]) && LegalRun(Step(L, ops[0]), FreeAfter(L, F, ops[0]), ops[1..]))
  }

  lemma StepCanonical(L: seq<seq<nat>>, F: set<nat>, op: Op)
    requires Canonical(L, F) && Legal(F, op)
    ensures Canonical(Step(L, op), FreeAfter(L, F, op))
  {
    match op
    case Free(a, size) => FreeCanonical(L, F, a, size);
    case Get(k) => if k <= MAX_ORDER { TakeCanonical(L, F, k); }
  }

  /** In every run the lists stay the canonical ones of the pages then free. */
  lemma {:induction false} RunCanonical(L: seq<seq<nat>>, F: set<nat>, ops: seq<Op>)
    requires Canonical(L, F) && LegalRun(L, F, ops)
    ensures Canonical(Run(L, ops), FreeAfterRun(L, F, ops))
    decreases |ops|
  {
    if ops != [] {
      StepCanonical(L, F, ops[0]);
      RunCanonical(Step(L, ops[0]), FreeAfter(L, F, ops[0]), ops[1..]);
    }
  }

  /** Two histories of one allocator that leave the same pages free leave the same lists. */
  lemma HistoryForgotten(base: nat, size: nat, ops: seq<Op>, ops': seq<Op>)
    requires base > 0
    requires var L0, F0 := FreeRange(EmptyLists(), base, size), PageRun(base, size);
             && LegalRun(L0, F0, ops) && LegalRun(L0, F0, ops')
             && FreeAfterRun(L0, F0, ops) == FreeAfterRun(L0, F0, ops')
    ensures var L0 := FreeRange(EmptyLists(), base, size); Run(L0, ops) == Run(L0, ops')
  {
    var L0, F0 := FreeRange(EmptyLists(), base, size), PageRun(base, size);
    EmptyCanonical();
    FreeCanonical(EmptyLists(), {}, base, size);
    assert {} + F0 == F0;
    RunCanonical(L0, F0, ops);
    RunCanonical(L0, F0, ops');
    CanonicalUnique(Run(L0, ops), Run(L0, ops'), FreeAfterRun(L0, F0, ops));
  }

  /** Once everything allocated is free again, whatever the order and the cuts of the frees, the
      lists are those that initialization built. */
  lemma AllFreedRestores(base: nat, size: nat, ops: seq<Op>)
    requires base > 0
    requires var L0, F0 := FreeRange(EmptyLists(), base, size), PageRun(base, size);
             LegalRun(L0, F0, ops) && FreeAfterRun(L0, F0, ops) == F0
    ensures var L0 := FreeRange(EmptyLists(), base, size); Run(L0, ops) == L0
  {
    HistoryForgotten(base, size, ops, []);
  }
}
