/** How the free lists lie in memory: doubly linked through the first words of the free blocks
    themselves, whose addresses are PAGE_SIZE times their pages. */
module BuddyLinks {
  import opened Utils
  import opened Arith
  import opened BuddyPages
  import opened BuddyLists

  const NULL: nat := 0

  // ----- Doubly linked lists of block addresses -----

  /** The address of the i-th block of a list of pages, or NULL beyond either end. */
  function At(s: seq<nat>, i: int): nat {
    if 0 <= i < |s| then PAGE_SIZE * s[i] else NULL
  }

  /** Following next from head visits exactly s; prev goes back. */
  ghost predicate Linked(s: seq<nat>, head: nat, next: map<nat, nat>, prev: map<nat, nat>) {
    && head == At(s, 0)
    && forall i :: 0 <= i < |s| ==> LinkedAt(s, i, next, prev)
  }

  ghost predicate LinkedAt(s: seq<nat>, i: nat, next: map<nat, nat>, prev: map<nat, nat>) {
    && At(s, i) in next && next[At(s, i)] == At(s, i + 1)
    && At(s, i) in prev && prev[At(s, i)] == At(s, i - 1)
  }

  predicate Same(m: map<nat, nat>, m': map<nat, nat>, a: nat) {
    a in m ==> a in m' && m'[a] == m[a]
  }

  /** A list is untouched when no link word of its blocks changes. */
  lemma LinkedFrame(s: seq<nat>, head: nat, next: map<nat, nat>, prev: map<nat, nat>,
                    next': map<nat, nat>, prev': map<nat, nat>)
    requires Linked(s, head, next, prev)
    requires forall p :: p in s ==> Same(next, next', PAGE_SIZE * p)
    requires forall p :: p in s ==> Same(prev, prev', PAGE_SIZE * p)
    ensures Linked(s, head, next', prev')
  {
    forall i | 0 <= i < |s|
      ensures LinkedAt(s, i, next', prev')
    {
      assert s[i] in s;
      assert LinkedAt(s, i, next, prev);
    }
  }

  /** Unlinking the i-th block. */
  lemma LinkedRemove(s: seq<nat>, i: nat, head: nat, next: map<nat, nat>, prev: map<nat, nat>,
                     next': map<nat, nat>, prev': map<nat, nat>)
    requires Linked(s, head, next, prev) && Sorted(s) && i < |s| && 0 !in s
    requires next' == if i == 0 then next[At(s, i) := NULL] else next[At(s, i - 1) := At(s, i + 1)][At(s, i) := NULL]
    requires prev' == if i + 1 == |s| then prev[At(s, i) := NULL]
                      else prev[At(s, i + 1) := At(s, i - 1)][At(s, i) := NULL]
    ensures Linked(s[..i] + s[i + 1..], if i == 0 then At(s, 1) else head, next', prev')
  {
    var t := s[..i] + s[i + 1..];
    forall j | 0 <= j < |t|
      ensures LinkedAt(t, j, next', prev')
    {
      if j < i {
        assert LinkedAt(s, j, next, prev);
      } else {
        assert LinkedAt(s, j + 1, next, prev);
      }
    }
  }

  /** Linking block p in as the i-th. */
  lemma LinkedInsert(s: seq<nat>, i: nat, p: nat, head: nat, next: map<nat, nat>, prev: map<nat, nat>,
                     next': map<nat, nat>, prev': map<nat, nat>)
    requires Linked(s, head, next, prev) && Sorted(s) && i <= |s| && p !in s && p > 0 && 0 !in s
    requires next' == if i == 0 then next[PAGE_SIZE * p := At(s, i)]
                      else next[PAGE_SIZE * p := At(s, i)][At(s, i - 1) := PAGE_SIZE * p]
    requires prev' == if i == |s| then prev[PAGE_SIZE * p := At(s, i - 1)]
                      else prev[PAGE_SIZE * p := At(s, i - 1)][At(s, i) := PAGE_SIZE * p]
    ensures Linked(s[..i] + [p] + s[i..], if i == 0 then PAGE_SIZE * p else head, next', prev')
  {
    var t := s[..i] + [p] + s[i..];
    forall j | 0 <= j < |t|
      ensures LinkedAt(t, j, next', prev')
    {
      if j < i {
        assert LinkedAt(s, j, next, prev) && s[j] != p;
      } else if j > i {
        assert LinkedAt(s, j - 1, next, prev) && s[j - 1] != p;
      }
    }
  }

  ghost predicate ListOk(s: seq<nat>, k: nat) {
    Sorted(s) && forall p :: p in s ==> p > 0 && Aligned(p, k)
  }

  /** The eleven lists: linked up, sorted, aligned and apart from one another. */
  ghost predicate AllLinked(L: seq<seq<nat>>, heads: seq<nat>, next: map<nat, nat>, prev: map<nat, nat>) {
    && |L| == |heads| == MAX_ORDER + 1
    && (forall k :: 0 <= k <= MAX_ORDER ==> Linked(L[k], heads[k], next, prev) && ListOk(L[k], k))
    && forall j, k, p :: 0 <= j <= MAX_ORDER && 0 <= k <= MAX_ORDER && p in L[j] && p in L[k] ==> j == k
  }

  ghost predicate Listed(L: seq<seq<nat>>, p: nat) {
    exists k :: 0 <= k < |L| && p in L[k]
  }

  /** Changing list k by writing only to its own blocks and to unlisted ones. */
  lemma Relink(L: seq<seq<nat>>, heads: seq<nat>, next: map<nat, nat>, prev: map<nat, nat>,
               k: nat, s: seq<nat>, head: nat, next': map<nat, nat>, prev': map<nat, nat>)
    requires AllLinked(L, heads, next, prev) && k <= MAX_ORDER
    requires Linked(s, head, next', prev') && ListOk(s, k)
    requires forall p :: p in s ==> p in L[k] || !Listed(L, p)
    requires forall p :: Listed(L, p) && p !in L[k] ==>
               Same(next, next', PAGE_SIZE * p) && Same(prev, prev', PAGE_SIZE * p)
    ensures AllLinked(L[k := s], heads[k := head], next', prev')
  {
    forall j | 0 <= j <= MAX_ORDER && j != k
      ensures Linked(L[j], heads[j], next', prev')
    {
      assert forall p :: p in L[j] ==> Listed(L, p) && p !in L[k];
      LinkedFrame(L[j], heads[j], next, prev, next', prev');
    }
  }

  /** Popping the head of list k. */
  lemma PopHead(L: seq<seq<nat>>, heads: seq<nat>, next: map<nat, nat>, prev: map<nat, nat>,
                k: nat, prev': map<nat, nat>)
    requires AllLinked(L, heads, next, prev) && k <= MAX_ORDER && L[k] != []
    requires prev' == if |L[k]| == 1 then prev else prev[At(L[k], 1) := NULL]
    ensures heads[k] == PAGE_SIZE * L[k][0] && heads[k] != NULL
    ensures heads[k] in next && next[heads[k]] == At(L[k], 1)
    ensures next[heads[k]] == NULL <==> |L[k]| == 1
    ensures AllLinked(L[k := L[k][1..]], heads[k := At(L[k], 1)], next, prev')
  {
    var s, t := L[k], L[k][1..];
    assert LinkedAt(s, 0, next, prev) && s[0] in s;
    assert |s| > 1 ==> s[1] in s;
    forall j | 0 <= j < |t|
      ensures LinkedAt(t, j, next, prev')
    {
      assert LinkedAt(s, j + 1, next, prev);
    }
    Relink(L, heads, next, prev, k, t, At(s, 1), next, prev');
  }

  /** Unlinking the i-th block of list k. */
  lemma RemoveFrom(L: seq<seq<nat>>, heads: seq<nat>, next: map<nat, nat>, prev: map<nat, nat>,
                   k: nat, i: nat, next': map<nat, nat>, prev': map<nat, nat>)
    requires AllLinked(L, heads, next, prev) && k <= MAX_ORDER && i < |L[k]|
    requires var s := L[k];
             && next' == (if i == 0 then next[At(s, i) := NULL]
                         else next[At(s, i - 1) := At(s, i + 1)][At(s, i) := NULL])
             && prev' == if i + 1 == |s| then prev[At(s, i) := NULL]
                         else prev[At(s, i + 1) := At(s, i - 1)][At(s, i) := NULL]
    ensures AllLinked(L[k := Remove(L[k], L[k][i])], if i == 0 then heads[k := At(L[k], 1)] else heads, next', prev')
  {
    var s, s', head := L[k], Remove(L[k], L[k][i]), if i == 0 then At(L[k], 1) else heads[k];
    assert s[i] in s;
    assert Linked(s', head, next', prev') by {
      LinkedRemove(s, i, heads[k], next, prev, next', prev');
      RemoveAt(s, i);
    }
    RemoveSorted(s, s[i]);
    RemoveTouches(s, i, next, prev, next', prev');
    Relink(L, heads, next, prev, k, s', head, next', prev');
  }

  /** Unlinking writes to blocks of the list only. */
  lemma RemoveTouches(s: seq<nat>, i: nat, next: map<nat, nat>, prev: map<nat, nat>, next': map<nat, nat>,
                      prev': map<nat, nat>)
    requires i < |s|
    requires next' == if i == 0 then next[At(s, i) := NULL] else next[At(s, i - 1) := At(s, i + 1)][At(s, i) := NULL]
    requires prev' == if i + 1 == |s| then prev[At(s, i) := NULL]
                      else prev[At(s, i + 1) := At(s, i - 1)][At(s, i) := NULL]
    ensures forall q: nat :: q !in s ==> Same(next, next', PAGE_SIZE * q) && Same(prev, prev', PAGE_SIZE * q)
  {
    assert i > 0 ==> s[i - 1] in s;
    assert i + 1 < |s| ==> s[i + 1] in s;
  }

  /** Linking block p into list k as its i-th. */
  lemma InsertInto(L: seq<seq<nat>>, heads: seq<nat>, next: map<nat, nat>, prev: map<nat, nat>,
                   k: nat, i: nat, p: nat, next': map<nat, nat>, prev': map<nat, nat>)
    requires AllLinked(L, heads, next, prev) && k <= MAX_ORDER && i <= |L[k]|
    requires !Listed(L, p) && p > 0 && Aligned(p, k)
    requires forall j :: 0 <= j < i ==> L[k][j] < p
    requires i < |L[k]| ==> p < L[k][i]
    requires var s := L[k];
             && next' == (if i == 0 then next[PAGE_SIZE * p := At(s, i)]
                          else next[PAGE_SIZE * p := At(s, i)][At(s, i - 1) := PAGE_SIZE * p])
             && prev' == if i == |s| then prev[PAGE_SIZE * p := At(s, i - 1)]
                         else prev[PAGE_SIZE * p := At(s, i - 1)][At(s, i) := PAGE_SIZE * p]
    ensures AllLinked(L[k := SortedInsert(L[k], p)], if i == 0 then heads[k := PAGE_SIZE * p] else heads, next', prev')
  {
    var s, s', head := L[k], SortedInsert(L[k], p), if i == 0 then PAGE_SIZE * p else heads[k];
    assert p !in s;
    assert Linked(s', head, next', prev') by {
      LinkedInsert(s, i, p, heads[k], next, prev, next', prev');
      SortedInsertAt(s, p, i);
    }
    SortedInsertSorted(s, p);
    forall q: nat | q !in s && q != p
      ensures Same(next, next', PAGE_SIZE * q) && Same(prev, prev', PAGE_SIZE * q)
    {
      assert i > 0 ==> s[i - 1] in s;
      assert i < |s| ==> s[i] in s;
    }
    Relink(L, heads, next, prev, k, s', head, next', prev');
  }

  /** Aligned blocks of one order do not overlap. */
  lemma NoneBetween(x: nat, y: nat, k: nat)
    requires Aligned(x, k) && Aligned(y, k) && x < y
    ensures x + Pow2(k) <= y
  {
    BlockPages(x, k, y);
    if Index(x, k) == Index(y, k) {
      SameBlock(x, y, k);
    }
  }

  /** The neighbours of the i-th block, read off its links. */
  lemma Around(L: seq<seq<nat>>, heads: seq<nat>, next: map<nat, nat>, prev: map<nat, nat>, k: nat, i: nat)
    requires AllLinked(L, heads, next, prev) && k <= MAX_ORDER && i < |L[k]|
    ensures var a := At(L[k], i);
            && a > 0 && a in next && a in prev
            && next[a] == At(L[k], i + 1) && prev[a] == At(L[k], i - 1)
            && (next[a] == NULL <==> i + 1 == |L[k]|) && (prev[a] == NULL <==> i == 0)
  {
    var s := L[k];
    assert LinkedAt(s, i, next, prev) && s[i] in s;
    assert i > 0 ==> s[i - 1] in s;
    assert i + 1 < |s| ==> s[i + 1] in s;
  }

  lemma HeadIsNull(L: seq<seq<nat>>, heads: seq<nat>, next: map<nat, nat>, prev: map<nat, nat>, k: nat)
    requires AllLinked(L, heads, next, prev) && k <= MAX_ORDER
    ensures heads[k] == At(L[k], 0) && (heads[k] == NULL <==> L[k] == [])
  {
    assert L[k] != [] ==> L[k][0] in L[k];
  }

  /** The free buddy, if any, stands next to the place where the block belongs. */
  lemma BuddySpot(L: seq<seq<nat>>, p: nat, k: nat, i: nat)
    requires |L| == MAX_ORDER + 1 && k <= MAX_ORDER && ListOk(L[k], k) && Aligned(p, k) && i <= |L[k]|
    requires forall j :: 0 <= j < i ==> L[k][j] < p
    requires i < |L[k]| ==> p < L[k][i]
    ensures FreeBuddy(L, p, k) ==
            if k < MAX_ORDER && Aligned(p, k + 1) && i < |L[k]| && L[k][i] == p + Pow2(k) then Some(L[k][i])
            else if k < MAX_ORDER && i > 0 && Aligned(L[k][i - 1], k + 1) && L[k][i - 1] + Pow2(k) == p
            then Some(L[k][i - 1])
            else None
  {
    var s := L[k];
    if i < |s| {
      assert s[i] in s;
      NoneBetween(p, s[i], k);
    }
    if i > 0 {
      assert s[i - 1] in s;
      NoneBetween(s[i - 1], p, k);
    }
  }

  /** A removed block is in no list. */
  lemma Unlisted(L: seq<seq<nat>>, heads: seq<nat>, next: map<nat, nat>, prev: map<nat, nat>, k: nat, b: nat, p: nat)
    requires AllLinked(L, heads, next, prev) && k <= MAX_ORDER && b in L[k]
    requires p == b || !Listed(L, p)
    ensures !Listed(L[k := Remove(L[k], b)], p)
  {
    RemoveSorted(L[k], b);
    assert forall j :: 0 <= j <= MAX_ORDER && j != k ==> L[k := Remove(L[k], b)][j] == L[j];
    assert forall j :: 0 <= j <= MAX_ORDER && p in L[j] ==> Listed(L, p);
  }

  /** A page that is not free starts no listed block. */
  lemma FreeListed(L: seq<seq<nat>>, F: set<nat>, p: nat)
    requires Canonical(L, F) && Listed(L, p)
    ensures p in F
  {
    var k :| 0 <= k < |L| && p in L[k];
    CanonicalAt(L, F, k);
  }

  /** A loop that files page ranges stands before the n pages from p on: the free pages will be
      filed, and the lists will be done. */
  ghost predicate Filing(L: seq<seq<nat>>, F: set<nat>, p: nat, n: nat, filed: set<nat>, done: seq<seq<nat>>) {
    && |L| == MAX_ORDER + 1 && p > 0
    && F !! PageRun(p, n) && F + PageRun(p, n) == filed && FreeRange(L, p, n) == done
  }

  lemma FilingStart(L: seq<seq<nat>>, F: set<nat>, p: nat, n: nat)
    requires |L| == MAX_ORDER + 1 && p > 0 && F !! PageRun(p, n)
    ensures Filing(L, F, p, n, F + PageRun(p, n), FreeRange(L, p, n))
  {
  }

  lemma FilingDone(L: seq<seq<nat>>, F: set<nat>, p: nat, filed: set<nat>, done: seq<seq<nat>>)
    requires Filing(L, F, p, 0, filed, done)
    ensures F == filed && L == done
  {
    FreeNothing(L, F, p);
  }

  lemma PendingUnlisted(L: seq<seq<nat>>, F: set<nat>, p: nat, n: nat)
    requires Canonical(L, F) && F !! PageRun(p, n) && n > 0
    ensures !Listed(L, p)
  {
    InPageRun(p, n);
    if Listed(L, p) {
      FreeListed(L, F, p);
    }
  }

  lemma FilingStep(L: seq<seq<nat>>, F: set<nat>, p: nat, n: nat, k: nat, filed: set<nat>, done: seq<seq<nat>>)
    requires Filing(L, F, p, n, filed, done) && n > 0 && k == ChunkOrder(p, n) && Pow2(k) <= n
    ensures F !! PageRun(p, Pow2(k))
    ensures Filing(InsertMerge(L, p, k), F + PageRun(p, Pow2(k)), p + Pow2(k), n - Pow2(k), filed, done)
  {
    FreeRangeStep(L, p, n, k);
    PagesApart(F, p, n, Pow2(k));
  }

  /** What one turn of such a loop does. */
  lemma ChunkReady(L: seq<seq<nat>>, F: set<nat>, p: nat, n: nat, k: nat, filed: set<nat>, done: seq<seq<nat>>)
    requires Canonical(L, F) && Filing(L, F, p, n, filed, done) && n > 0 && k == ChunkOrder(p, n)
    ensures Aligned(p, k) && Pow2(k) <= n && !Listed(L, p)
    ensures Canonical(InsertMerge(L, p, k), F + PageRun(p, Pow2(k)))
    ensures Filing(InsertMerge(L, p, k), F + PageRun(p, Pow2(k)), p + Pow2(k), n - Pow2(k), filed, done)
  {
    ChunkFits(p, n, k);
    PendingUnlisted(L, F, p, n);
    FilingStep(L, F, p, n, k, filed, done);
    AddChunk(L, F, p, k);
  }

  /** The largest order that is both aligned and fits is the one that a free would take. */
  lemma LargestChunk(p: nat, n: nat, k: nat)
    requires p > 0 && n > 0 && k <= OrderOf(p) && Pow2(k) <= n
    requires k == OrderOf(p) || Pow2(k + 1) > n
    ensures k == ChunkOrder(p, n)
  {
    AlignedUpTo(p, k);
    ChunkFits(p, n, k);
    if k < MAX_ORDER {
      AlignedUpTo(p, k + 1);
      ChunkFits(p, n, k + 1);
    }
  }

  // ----- Orders of byte addresses and sizes -----

  /** The lowest set bit of n, that is n & -n. */
  function LowBit(n: nat): nat {
    if n == 0 then 0 else Pow2(Exp2(n))
  }

  function ByteOrder(n: nat): (k: nat)
    ensures k <= MAX_ORDER
  {
    if n == 0 || Exp2(n) < 12 then 0
    else if Exp2(n) - 12 < MAX_ORDER then Exp2(n) - 12
    else MAX_ORDER
  }

  function Doubles(n: nat, j: nat): nat {
    if j == 0 then n else 2 * Doubles(n, j - 1)
  }

  lemma {:induction false} ExpOfDoubles(n: nat, j: nat)
    requires n > 0
    ensures Doubles(n, j) > 0 && Exp2(Doubles(n, j)) == j + Exp2(n)
  {
    if j > 0 {
      ExpOfDoubles(n, j - 1);
    }
  }

  lemma TwelveDoubles(n: nat)
    ensures Doubles(n, 12) == PAGE_SIZE * n
  {
    assert Doubles(n, 1) == 2 * n;
    assert Doubles(n, 2) == 4 * n;
    assert Doubles(n, 4) == 16 * n;
    assert Doubles(n, 6) == 64 * n;
    assert Doubles(n, 8) == 256 * n;
    assert Doubles(n, 10) == 1024 * n;
  }

  /** On page addresses the byte order is the order of the page. */
  lemma ByteOrderOfPage(p: nat)
    ensures ByteOrder(PAGE_SIZE * p) == OrderOf(p)
  {
    if p > 0 {
      ExpOfDoubles(p, 12);
      TwelveDoubles(p);
    }
  }

  lemma {:induction false} Pow2Div(e: nat, j: nat)
    ensures Doubles(1, j) == Pow2(j)
    ensures Pow2(e) / Pow2(j) == if e >= j then Pow2(e - j) else 0
  {
    if j > 0 {
      Pow2Div(e, j - 1);
      Doubled(Pow2(e), Pow2(j - 1), Pow2(j));
    }
  }

  lemma Pow2Of13()
    ensures Pow2(13) == 2 * PAGE_SIZE
  {
    TwelveDoubles(1);
    Pow2Div(0, 12);
    assert Pow2(13) == 2 * Pow2(12);
  }

  /** The requests that buddyGetMemory serves: PAGE_SIZE << order, with order at most MAX_ORDER.
      Size 0 is served like one page. */
  function RequestOrder(size: nat): Option<nat> {
    var order := ByteOrder(size);
    if size == 0 then Some(0)
    else if size == PAGE_SIZE * Pow2(order) then Some(order)
    else None
  }

  lemma TooLarge(size: nat)
    requires size > PAGE_SIZE * Pow2(MAX_ORDER)
    ensures RequestOrder(size).None?
  {
    Pow2Grows(ByteOrder(size), MAX_ORDER);
  }

  lemma RequestOf(k: nat)
    requires k <= MAX_ORDER
    ensures RequestOrder(PAGE_SIZE * Pow2(k)) == Some(k)
  {
    ByteOrderOfPage(Pow2(k));
    Pow2Div(0, k);
    ExpOfDoubles(1, k);
  }

  /** The request that a split makes. */
  lemma DoubleRequest(size: nat, k: nat)
    requires k <= MAX_ORDER && size == PAGE_SIZE * Pow2(k)
    ensures RequestOrder(2 * size) == if k < MAX_ORDER then Some(k + 1) else None
  {
    if k < MAX_ORDER { RequestOf(k + 1); } else { TooLarge(2 * size); }
  }

  /** TakeFrom in terms of the pages that are free. */
  lemma TakePages(L: seq<seq<nat>>, F: set<nat>, k: nat)
    requires Canonical(L, F) && k <= MAX_ORDER
    ensures TakeFrom(L, k).None? <==> !HasFree(F, k)
    ensures TakeFrom(L, k).Some? ==>
              var Taken(p, L') := TakeFrom(L, k).value;
              && Aligned(p, k) && PageRun(p, Pow2(k)) <= F
              && Canonical(L', F - PageRun(p, Pow2(k)))
  {
    TakeCanonical(L, F, k);
    if TakeFrom(L, k).Some? {
      var p := TakeFrom(L, k).value.page;
      BlockIsPages(p, k);
      InBlock(k, Index(p, k));
    }
  }

  /** A get from an empty list splits what the next order gives. */
  lemma TakeSplit(L: seq<seq<nat>>, k: nat)
    requires |L| == MAX_ORDER + 1 && k <= MAX_ORDER && L[k] == []
    ensures k == MAX_ORDER ==> TakeFrom(L, k).None?
    ensures k < MAX_ORDER && TakeFrom(L, k + 1).None? ==> TakeFrom(L, k).None?
    ensures k < MAX_ORDER && TakeFrom(L, k + 1).Some? ==>
              var Taken(p, L1) := TakeFrom(L, k + 1).value;
              TakeFrom(L, k) == Some(Taken(p, L1[k := SortedInsert(L1[k], p + Pow2(k))]))
  {
  }

  lemma NothingLarger(L: seq<seq<nat>>, F: set<nat>, k: nat)
    requires Canonical(L, F) && k <= MAX_ORDER && L[k] == []
    requires k < MAX_ORDER ==> !HasFree(F, k + 1)
    ensures !HasFree(F, k)
  {
    TakePages(L, F, k);
    TakeSplit(L, k);
    if k < MAX_ORDER { TakePages(L, F, k + 1); }
  }

  /** The right half of a block taken from order k + 1 may be filed under order k. */
  lemma RightHalfReady(L1: seq<seq<nat>>, F: set<nat>, p: nat, k: nat)
    requires Aligned(p, k + 1) && Canonical(L1, F - PageRun(p, Pow2(k + 1)))
    ensures Aligned(p + Pow2(k), k) && !Listed(L1, p + Pow2(k))
  {
    NextBlock(p, k);
    InPageRun(p, Pow2(k + 1));
    if Listed(L1, p + Pow2(k)) {
      FreeListed(L1, F - PageRun(p, Pow2(k + 1)), p + Pow2(k));
    }
  }
}
