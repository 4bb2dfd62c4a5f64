/** The free list of the kernel heap (memory/kheap.c) as a list of blocks, and the proof that it is at all
    times the list of the maximal runs of free bytes. */
module HeapBlocks {
  import opened Utils
  import opened WordBits

  /** sizeof(heapBlock_t), the header that a free block begins with. */
  const HEADER: nat := 8

  datatype HeapBlock = HeapBlock(addr: nat, size: nat)

  function End(b: HeapBlock): nat {
    b.addr + b.size
  }

  predicate In(b: HeapBlock, x: nat) {
    b.addr <= x < b.addr + b.size
  }

  ghost predicate Covers(s: seq<HeapBlock>, x: nat) {
    exists i :: 0 <= i < |s| && In(s[i], x)
  }

  /** Sorted by address, disjoint, and no two neighbours touch. */
  ghost predicate Apart(s: seq<HeapBlock>) {
    forall i, j :: 0 <= i < j < |s| ==> End(s[i]) < s[j].addr
  }

  /** Blocks have room for their header and are aligned. */
  predicate BlockOk(b: HeapBlock) {
    b.addr > 0 && b.addr % 4 == 0 && b.size >= HEADER && b.size % 4 == 0
  }

  ghost predicate Heap(s: seq<HeapBlock>) {
    Apart(s) && forall i :: 0 <= i < |s| ==> BlockOk(s[i])
  }

  /** The requested size made a multiple of 4, and large enough for a header. */
  function Round(size: nat): (r: nat)
    ensures r >= size && r >= HEADER && r % 4 == 0
    ensures if size >= HEADER then r < size + 4 else r == HEADER
  {
    if size < HEADER then HEADER else if size % 4 != 0 then size - size % 4 + 4 else size
  }

  // ----- The list is a function of the free bytes -----

  /** The blocks are the maximal runs of covered bytes. */
  lemma BlocksAreRuns(s: seq<HeapBlock>, b: HeapBlock)
    requires Heap(s)
    ensures b in s <==>
            && b.addr > 0 && b.size > 0 && (forall x: nat :: In(b, x) ==> Covers(s, x))
            && !Covers(s, b.addr - 1) && !Covers(s, End(b))
  {
    if b in s {
      var i :| 0 <= i < |s| && s[i] == b;
      assert forall x: nat :: In(b, x) ==> In(s[i], x);
      assert forall j :: 0 <= j < |s| && j != i ==> (j < i ==> End(s[j]) < b.addr) && (j > i ==> End(b) < s[j].addr);
    } else if b.addr > 0 && b.size > 0 && (forall x: nat :: In(b, x) ==> Covers(s, x))
              && !Covers(s, b.addr - 1) && !Covers(s, End(b)) {
      assert In(b, b.addr);
      var i :| 0 <= i < |s| && In(s[i], b.addr);
      assert !In(s[i], b.addr - 1);
      assert !In(s[i], End(b));
      assert In(b, End(s[i]));
      NothingBehind(s, i);
      assert false;
    }
  }

  /** The byte behind a block is not covered. */
  lemma NothingBehind(s: seq<HeapBlock>, i: nat)
    requires Heap(s) && i < |s|
    ensures !Covers(s, End(s[i]))
  {
    forall j | 0 <= j < |s|
      ensures !In(s[j], End(s[i]))
    {
      assert j < i ==> End(s[j]) < s[i].addr;
      assert i < j ==> End(s[i]) < s[j].addr;
    }
  }

  /** Two heaps with the same free bytes have the same list. */
  lemma HeapUnique(s: seq<HeapBlock>, t: seq<HeapBlock>)
    requires Heap(s) && Heap(t) && forall x: nat :: Covers(s, x) <==> Covers(t, x)
    ensures s == t
  {
    forall b
      ensures b in s <==> b in t
    {
      BlocksAreRuns(s, b);
      BlocksAreRuns(t, b);
    }
    SameBlocks(s, t);
  }

  lemma {:induction false} SameBlocks(s: seq<HeapBlock>, t: seq<HeapBlock>)
    requires Heap(s) && Heap(t) && forall b :: b in s <==> b in t
    ensures s == t
    decreases |s|
  {
    assert t != [] ==> t[0] in s;
    if s != [] {
      assert s[0] in t && t != [] && t[0] in s;
      assert s[0] == t[0];
      var s', t' := s[1..], t[1..];
      forall b
        ensures b in s' <==> b in t'
      {
        assert b in s <==> b == s[0] || b in s';
        assert b in t <==> b == t[0] || b in t';
        assert s[0] !in s' && t[0] !in t';
      }
      SameBlocks(s', t');
      assert s == [s[0]] + s' && t == [t[0]] + t';
    }
  }

  // ----- HeapBlockInsert -----

  /** The number of blocks below address a. */
  function Pos(s: seq<HeapBlock>, a: nat): (i: nat)
    ensures i <= |s| && (forall j :: 0 <= j < i ==> s[j].addr < a) && (i < |s| ==> s[i].addr >= a)
  {
    if s == [] || s[0].addr >= a then 0 else 1 + Pos(s[1..], a)
  }

  /** BlockMerge: block i takes in its successor if they touch. */
  function Merge(s: seq<HeapBlock>, i: nat): seq<HeapBlock>
    requires i < |s|
  {
    if i + 1 < |s| && End(s[i]) == s[i + 1].addr
    then s[..i] + [HeapBlock(s[i].addr, s[i].size + s[i + 1].size)] + s[i + 2..]
    else s
  }

  function Grown(s: seq<HeapBlock>, i: nat, n: nat): seq<HeapBlock>
    requires i < |s|
  {
    s[i := HeapBlock(s[i].addr, s[i].size + n)]
  }

  /** Whether some block ends where the run begins. */
  predicate Extends(s: seq<HeapBlock>, a: nat) {
    var i := Pos(s, a);
    i > 0 && End(s[i - 1]) == a
  }

  /** Whether the n bytes from a on end where a block begins. */
  predicate Precedes(s: seq<HeapBlock>, a: nat, n: nat) {
    var i := Pos(s, a);
    i < |s| && a + n == s[i].addr
  }

  /** The blocks once a header is written at a. In a run of 4 bytes before a block its second word, the address
      of that block, is where the size of that block was. */
  function Written(s: seq<HeapBlock>, a: nat, n: nat): (r: seq<HeapBlock>)
    ensures |r| == |s|
  {
    var i := Pos(s, a);
    if n < HEADER && Precedes(s, a, n) then s[i := HeapBlock(s[i].addr, s[i].addr)] else s
  }

  /** The free list with the n bytes from a on. */
  function Insert(s: seq<HeapBlock>, a: nat, n: nat): seq<HeapBlock> {
    var i := Pos(s, a);
    if Extends(s, a) then Merge(Grown(s, i - 1, n), i - 1)
    else Merge(InsertAt(Written(s, a, n), i, HeapBlock(a, n)), i)
  }

  /** The run needs no header, or has room for one. */
  predicate Fits(s: seq<HeapBlock>, a: nat, n: nat) {
    n >= HEADER || Extends(s, a)
  }

  /** None of the n bytes from a on is free. */
  ghost predicate Outside(s: seq<HeapBlock>, a: nat, n: nat) {
    forall x: nat :: a <= x < a + n ==> !Covers(s, x)
  }

  /** A run that is not free lies between the blocks. */
  lemma Between(s: seq<HeapBlock>, a: nat, n: nat)
    requires Heap(s) && Outside(s, a, n) && n > 0
    ensures var i := Pos(s, a); (i > 0 ==> End(s[i - 1]) <= a) && (i < |s| ==> a + n <= s[i].addr)
    ensures forall j :: 0 <= j < |s| ==> End(s[j]) <= a || a + n <= s[j].addr
  {
    forall j | 0 <= j < |s|
      ensures End(s[j]) <= a || a + n <= s[j].addr
    {
      var x := if s[j].addr < a then a else s[j].addr;
      assert a <= x < a + n ==> !Covers(s, x);
      assert In(s[j], x) ==> Covers(s, x);
    }
  }

  lemma MergeAt(s: seq<HeapBlock>, i: nat, j: nat)
    requires i < |s| && j < |Merge(s, i)|
    ensures var t := Merge(s, i);
            t[j] == if t == s || j < i then s[j]
                    else if j == i then HeapBlock(s[i].addr, s[i].size + s[i + 1].size)
                    else s[j + 1]
  {
  }

  /** Merging changes nothing about the bytes. */
  lemma MergeCovers(s: seq<HeapBlock>, i: nat, x: nat)
    requires i < |s|
    ensures Covers(Merge(s, i), x) <==> Covers(s, x)
  {
    var t := Merge(s, i);
    if t != s {
      var m := HeapBlock(s[i].addr, s[i].size + s[i + 1].size);
      if Covers(s, x) {
        var j :| 0 <= j < |s| && In(s[j], x);
        assert j < i ==> t[j] == s[j];
        assert t[i] == m && (j == i || j == i + 1 ==> In(m, x));
        assert j > i + 1 ==> t[j - 1] == s[j];
      }
      if Covers(t, x) {
        var j :| 0 <= j < |t| && In(t[j], x);
        MergeAt(s, i, j);
        assert j == i ==> In(s[i], x) || In(s[i + 1], x);
      }
    }
  }

  /** Blocks in order that touch at most behind block i. */
  ghost predicate ApartBut(s: seq<HeapBlock>, i: nat) {
    && (forall j, k :: 0 <= j < k < |s| && !(j == i && k == i + 1) ==> End(s[j]) < s[k].addr)
    && (i + 1 < |s| ==> End(s[i]) <= s[i + 1].addr)
  }

  lemma MergeApart(s: seq<HeapBlock>, i: nat)
    requires i < |s| && ApartBut(s, i)
    ensures Apart(Merge(s, i))
  {
    var t := Merge(s, i);
    forall j, k | 0 <= j < k < |t|
      ensures End(t[j]) < t[k].addr
    {
      MergeAt(s, i, j);
      MergeAt(s, i, k);
    }
  }

  lemma GrownCovers(s: seq<HeapBlock>, i: nat, n: nat, x: nat)
    requires i < |s|
    ensures Covers(Grown(s, i, n), x) <==> Covers(s, x) || End(s[i]) <= x < End(s[i]) + n
  {
    var g := Grown(s, i, n);
    if Covers(s, x) {
      var j :| 0 <= j < |s| && In(s[j], x);
      assert In(g[j], x);
    }
    if Covers(g, x) {
      var j :| 0 <= j < |g| && In(g[j], x);
      assert j != i ==> In(s[j], x);
      assert j == i ==> In(s[i], x) || End(s[i]) <= x < End(s[i]) + n;
    }
    if End(s[i]) <= x < End(s[i]) + n { assert In(g[i], x); }
  }

  lemma PutCovers(s: seq<HeapBlock>, i: nat, b: HeapBlock, x: nat)
    requires i <= |s|
    ensures Covers(InsertAt(s, i, b), x) <==> Covers(s, x) || In(b, x)
  {
    var p := InsertAt(s, i, b);
    if Covers(s, x) {
      var j :| 0 <= j < |s| && In(s[j], x);
      assert In(p[if j < i then j else j + 1], x);
    }
    if Covers(p, x) {
      var j :| 0 <= j < |p| && In(p[j], x);
      if j != i { assert In(s[if j < i then j else j - 1], x); }
    }
    if In(b, x) { assert In(p[i], x); }
  }

  /** Insertion adds exactly the bytes of the run. */
  lemma InsertCovers(s: seq<HeapBlock>, a: nat, n: nat, x: nat)
    requires Fits(s, a, n)
    ensures Covers(Insert(s, a, n), x) <==> Covers(s, x) || a <= x < a + n
  {
    hide Covers, Merge;
    var i := Pos(s, a);
    if Extends(s, a) {
      GrownCovers(s, i - 1, n, x);
      MergeCovers(Grown(s, i - 1, n), i - 1, x);
    } else {
      PutCovers(s, i, HeapBlock(a, n), x);
      MergeCovers(InsertAt(s, i, HeapBlock(a, n)), i, x);
    }
  }

  lemma GrownApart(s: seq<HeapBlock>, i: nat, n: nat)
    requires Apart(s) && i < |s| && (i + 1 < |s| ==> End(s[i]) + n <= s[i + 1].addr)
    ensures ApartBut(Grown(s, i, n), i)
  {
    var g := Grown(s, i, n);
    forall j, k | 0 <= j < k < |g| && !(j == i && k == i + 1)
      ensures End(g[j]) < g[k].addr
    {
      assert End(s[j]) < s[k].addr;
      if j == i { assert End(s[i + 1]) < s[k].addr; }
    }
  }

  lemma PutApart(s: seq<HeapBlock>, i: nat, b: HeapBlock)
    requires Apart(s) && i <= |s| && (i > 0 ==> End(s[i - 1]) < b.addr) && (i < |s| ==> End(b) <= s[i].addr)
    ensures ApartBut(InsertAt(s, i, b), i)
  {
    var p := InsertAt(s, i, b);
    forall j, k | 0 <= j < k < |p| && !(j == i && k == i + 1)
      ensures End(p[j]) < p[k].addr
    {
      if j < i && k == i {
        assert j < i - 1 ==> End(s[j]) < s[i - 1].addr;
      } else if j == i {
        assert End(s[i]) < s[k - 1].addr;
      } else {
        assert End(s[if j < i then j else j - 1]) < s[if k < i then k else k - 1].addr;
      }
    }
  }

  lemma InsertApart(s: seq<HeapBlock>, a: nat, n: nat)
    requires Heap(s) && n > 0 && Outside(s, a, n) && Fits(s, a, n)
    ensures Apart(Insert(s, a, n))
  {
    hide ApartBut, Merge, Outside;
    Between(s, a, n);
    var i := Pos(s, a);
    if Extends(s, a) {
      GrownApart(s, i - 1, n);
      MergeApart(Grown(s, i - 1, n), i - 1);
    } else {
      PutApart(s, i, HeapBlock(a, n));
      MergeApart(InsertAt(s, i, HeapBlock(a, n)), i);
    }
  }

  /** A run that fits keeps the heap well-formed. */
  lemma InsertHeap(s: seq<HeapBlock>, a: nat, n: nat)
    requires Heap(s) && a > 0 && a % 4 == 0 && n > 0 && n % 4 == 0 && Outside(s, a, n) && Fits(s, a, n)
    ensures Heap(Insert(s, a, n))
  {
    hide Apart, Outside;
    InsertApart(s, a, n);
    var i := Pos(s, a);
    if Extends(s, a) {
      MergeBlocksOk(Grown(s, i - 1, n), i - 1);
    } else {
      MergeBlocksOk(InsertAt(s, i, HeapBlock(a, n)), i);
    }
  }

  /** The list is a heap with exactly the bytes of the run added. */
  ghost predicate Accepted(s: seq<HeapBlock>, a: nat, n: nat) {
    Heap(Insert(s, a, n)) && forall x: nat :: Covers(Insert(s, a, n), x) <==> Covers(s, x) || a <= x < a + n
  }

  /** That is so exactly for runs that fit, unless the size that a header overwrites is by chance the address
      that it is overwritten with. */
  lemma InsertExactly(s: seq<HeapBlock>, a: nat, n: nat)
    requires Heap(s) && a > 0 && a % 4 == 0 && n > 0 && n % 4 == 0 && Outside(s, a, n)
    ensures Accepted(s, a, n) <==> Fits(s, a, n) || (Precedes(s, a, n) && s[Pos(s, a)].size == s[Pos(s, a)].addr)
  {
    hide Heap, Covers, Outside, Insert;
    if Fits(s, a, n) {
      InsertHeap(s, a, n);
      forall x: nat
        ensures Covers(Insert(s, a, n), x) <==> Covers(s, x) || a <= x < a + n
      {
        InsertCovers(s, a, n, x);
      }
    } else if Precedes(s, a, n) {
      ShortRun(s, a, n);
    } else {
      LoneRun(s, a, n);
    }
  }

  /** A run without room for a header that joins nothing. */
  lemma LoneRun(s: seq<HeapBlock>, a: nat, n: nat)
    requires n < HEADER && !Extends(s, a) && !Precedes(s, a, n)
    ensures !Heap(Insert(s, a, n))
  {
    var i, p := Pos(s, a), InsertAt(s, Pos(s, a), HeapBlock(a, n));
    MergeNone(p, i);
    assert !BlockOk(p[i]);
  }

  /** A run of 4 bytes before a block: the block takes part with its address for a size. */
  lemma ShortRun(s: seq<HeapBlock>, a: nat, n: nat)
    requires Heap(s) && a > 0 && a % 4 == 0 && n > 0 && n % 4 == 0 && Outside(s, a, n)
    requires n < HEADER && !Extends(s, a) && Precedes(s, a, n)
    ensures Accepted(s, a, n) <==> s[Pos(s, a)].size == s[Pos(s, a)].addr
  {
    hide Covers, Outside, Heap, Merge;
    var i, t := Pos(s, a), Insert(s, a, n);
    var b := s[i];
    ShortMerged(s, a, n);
    if b.size == b.addr {
      assert Written(s, a, n) == s;
      ShortHeap(s, a, n);
      forall x: nat
        ensures Covers(t, x) <==> Covers(s, x) || a <= x < a + n
      {
        PutCovers(s, i, HeapBlock(a, n), x);
        MergeCovers(InsertAt(s, i, HeapBlock(a, n)), i, x);
      }
    } else if Accepted(s, a, n) {
      if b.size < b.addr {
        NothingBehind(s, i);
        Covered(t, i, End(b));
      } else {
        NothingBehind(t, i);
        Covered(s, i, End(t[i]));
      }
    }
  }

  lemma Covered(s: seq<HeapBlock>, i: nat, x: nat)
    requires i < |s| && In(s[i], x)
    ensures Covers(s, x)
  {
  }

  lemma ShortMerged(s: seq<HeapBlock>, a: nat, n: nat)
    requires n < HEADER && !Extends(s, a) && Precedes(s, a, n)
    ensures var i := Pos(s, a); i < |Insert(s, a, n)| && Insert(s, a, n)[i] == HeapBlock(a, n + s[i].addr)
  {
  }

  lemma ShortHeap(s: seq<HeapBlock>, a: nat, n: nat)
    requires Heap(s) && a > 0 && a % 4 == 0 && n > 0 && n % 4 == 0 && Outside(s, a, n)
    requires !Extends(s, a) && Precedes(s, a, n)
    ensures Heap(Merge(InsertAt(s, Pos(s, a), HeapBlock(a, n)), Pos(s, a)))
  {
    hide Merge, Outside, ApartBut;
    var i := Pos(s, a);
    Between(s, a, n);
    PutApart(s, i, HeapBlock(a, n));
    MergeApart(InsertAt(s, i, HeapBlock(a, n)), i);
    MergeBlocksOk(InsertAt(s, i, HeapBlock(a, n)), i);
  }

  lemma MergeNone(s: seq<HeapBlock>, i: nat)
    requires i < |s| && (i + 1 < |s| ==> End(s[i]) != s[i + 1].addr)
    ensures Merge(s, i) == s
  {
  }

  lemma MergeBlocksOk(s: seq<HeapBlock>, i: nat)
    requires i < |s| && (forall j :: 0 <= j < |s| && j != i ==> BlockOk(s[j]))
    requires s[i].addr > 0 && s[i].addr % 4 == 0 && s[i].size % 4 == 0
    requires s[i].size >= HEADER || (i + 1 < |s| && End(s[i]) == s[i + 1].addr)
    ensures forall j :: 0 <= j < |Merge(s, i)| ==> BlockOk(Merge(s, i)[j])
  {
    forall j | 0 <= j < |Merge(s, i)|
      ensures BlockOk(Merge(s, i)[j])
    {
      MergeAt(s, i, j);
      if Merge(s, i) == s { MergeSome(s, i); }
    }
  }

  lemma MergeSome(s: seq<HeapBlock>, i: nat)
    requires i < |s| && Merge(s, i) == s
    ensures i + 1 < |s| ==> End(s[i]) != s[i + 1].addr
  {
  }

  /** The order of two releases does not matter. */
  lemma InsertsCommute(s: seq<HeapBlock>, a: nat, n: nat, b: nat, m: nat)
    requires Heap(s) && a > 0 && a % 4 == 0 && n >= HEADER && n % 4 == 0 && Outside(s, a, n)
    requires b > 0 && b % 4 == 0 && m >= HEADER && m % 4 == 0 && Outside(s, b, m)
    requires a + n <= b || b + m <= a
    ensures Insert(Insert(s, a, n), b, m) == Insert(Insert(s, b, m), a, n)
  {
    hide Heap, Covers, Insert;
    var sa, sb := Insert(s, a, n), Insert(s, b, m);
    InsertHeap(s, a, n);
    InsertHeap(s, b, m);
    forall x: nat
      ensures Covers(sa, x) <==> Covers(s, x) || a <= x < a + n
      ensures Covers(sb, x) <==> Covers(s, x) || b <= x < b + m
      ensures Covers(Insert(sa, b, m), x) <==> Covers(sa, x) || b <= x < b + m
      ensures Covers(Insert(sb, a, n), x) <==> Covers(sb, x) || a <= x < a + n
    {
      InsertCovers(s, a, n, x);
      InsertCovers(s, b, m, x);
      InsertCovers(sa, b, m, x);
      InsertCovers(sb, a, n, x);
    }
    InsertHeap(sa, b, m);
    InsertHeap(sb, a, n);
    HeapUnique(Insert(sa, b, m), Insert(sb, a, n));
  }

  // ----- kmalloc: first fit -----

  /** The first block with at least n bytes. */
  function FirstFit(s: seq<HeapBlock>, n: nat): (i: nat)
    ensures i <= |s| && (forall j :: 0 <= j < i ==> s[j].size < n) && (i < |s| ==> s[i].size >= n)
  {
    if s == [] || s[0].size >= n then 0 else 1 + FirstFit(s[1..], n)
  }

  /** The list without block i, or with n bytes cut off its end if a header remains. */
  function TakeFrom(s: seq<HeapBlock>, i: nat, n: nat): seq<HeapBlock>
    requires i < |s| && s[i].size >= n
  {
    if s[i].size < n + HEADER then Cut(s, i) else s[i := HeapBlock(s[i].addr, s[i].size - n)]
  }

  /** The bytes that leave the list: the n allocated ones, at the end of the block or at its begin. */
  function Taken(s: seq<HeapBlock>, i: nat, n: nat): HeapBlock
    requires i < |s| && s[i].size >= n
  {
    if s[i].size < n + HEADER then s[i] else HeapBlock(s[i].addr + s[i].size - n, n)
  }

  lemma TakeKeeps(s: seq<HeapBlock>, i: nat, n: nat)
    requires Heap(s) && i < |s| && s[i].size >= n && n % 4 == 0
    ensures Heap(TakeFrom(s, i, n))
    ensures forall x: nat :: Covers(TakeFrom(s, i, n), x) <==> Covers(s, x) && !In(Taken(s, i, n), x)
    ensures forall x: nat :: In(Taken(s, i, n), x) ==> Covers(s, x)
    ensures Taken(s, i, n).size - n in {0, 4}
  {
    var r, b := TakeFrom(s, i, n), Taken(s, i, n);
    forall x: nat
      ensures Covers(r, x) <==> Covers(s, x) && !In(b, x)
      ensures In(b, x) ==> Covers(s, x)
    {
      if In(b, x) { assert In(s[i], x); }
      if s[i].size < n + HEADER {
        RemoveCovers(s, i, x);
      } else {
        ShrinkCovers(s, i, n, x);
      }
    }
  }

  lemma OnlyBlock(s: seq<HeapBlock>, i: nat, j: nat, x: nat)
    requires Heap(s) && i < |s| && j < |s| && i != j && In(s[i], x)
    ensures !In(s[j], x)
  {
    if i < j {
      assert End(s[i]) < s[j].addr;
    } else {
      assert End(s[j]) < s[i].addr;
    }
  }

  lemma RemoveCovers(s: seq<HeapBlock>, i: nat, x: nat)
    requires Heap(s) && i < |s|
    ensures Covers(Cut(s, i), x) <==> Covers(s, x) && !In(s[i], x)
  {
    hide Heap;
    if Covers(s, x) && !In(s[i], x) { CutHas(s, i, x); }
    var r := Cut(s, i);
    if Covers(r, x) {
      var j :| 0 <= j < |r| && In(r[j], x);
      var k := if j < i then j else j + 1;
      Covered(s, k, x);
      OnlyBlock(s, k, i, x);
    }
  }

  lemma CutHas(s: seq<HeapBlock>, i: nat, x: nat)
    requires i < |s| && Covers(s, x) && !In(s[i], x)
    ensures Covers(Cut(s, i), x)
  {
    var j :| 0 <= j < |s| && In(s[j], x);
    assert In(Cut(s, i)[if j < i then j else j - 1], x);
  }

  lemma ShrinkCovers(s: seq<HeapBlock>, i: nat, n: nat, x: nat)
    requires Heap(s) && i < |s| && s[i].size >= n + HEADER
    ensures Covers(TakeFrom(s, i, n), x) <==> Covers(s, x) && !In(Taken(s, i, n), x)
  {
    var r, b := TakeFrom(s, i, n), Taken(s, i, n);
    if Covers(s, x) && !In(b, x) {
      var j :| 0 <= j < |s| && In(s[j], x);
      assert In(r[j], x);
    }
    if Covers(r, x) {
      var j :| 0 <= j < |r| && In(r[j], x);
      assert In(s[j], x);
      if j != i { OnlyBlock(s, j, i, x); }
    }
  }

  /** Releasing what was just allocated restores the list, except that the 4 bytes that a whole block may
      have beyond the request are lost. */
  lemma FreeUndoesTake(s: seq<HeapBlock>, i: nat, n: nat)
    requires Heap(s) && i < |s| && s[i].size >= n && n >= HEADER && n % 4 == 0
    ensures Insert(TakeFrom(s, i, n), Taken(s, i, n).addr, n) == s <==> s[i].size != n + 4
  {
    hide Covers, Insert, TakeFrom, Pos, Apart;
    var t, b := TakeFrom(s, i, n), Taken(s, i, n);
    TakeKeeps(s, i, n);
    assert forall x: nat :: b.addr <= x < b.addr + n ==> In(b, x);
    InsertHeap(t, b.addr, n);
    var r := Insert(t, b.addr, n);
    forall x: nat
      ensures Covers(r, x) <==> Covers(t, x) || b.addr <= x < b.addr + n
    {
      InsertCovers(t, b.addr, n, x);
    }
    if s[i].size == n + 4 {
      assert In(b, b.addr + n) && !Covers(r, b.addr + n);
    } else {
      assert forall x: nat :: In(b, x) <==> b.addr <= x < b.addr + n;
      HeapUnique(r, s);
    }
  }

  // ----- Growth -----

  /** How much kmalloc asks the memory manager for. */
  function GrowSize(n: nat, grow: nat): nat
    requires grow >= HEADER
  {
    if n > grow - HEADER then Msb(2 * n) else grow
  }

  /** What is left of new memory has room for a header unless the request is 4 bytes short of a power of
      two and does not fit the usual growth. */
  lemma GrowthRemainder(n: nat, grow: nat)
    requires n >= HEADER && n % 4 == 0 && grow >= HEADER && grow % 4 == 0
    ensures var rest := GrowSize(n, grow) - n;
            rest > 0 && rest % 4 == 0 && (rest >= HEADER <==> !(n > grow - HEADER && IsPow2(n + 4)))
  {
    hide Msb, IsPow2;
    if n > grow - HEADER {
      MsbBounds(2 * n);
      MsbMultiple(2 * n);
      NearestPower(n, Msb(2 * n));
    }
  }

  lemma NearestPower(n: nat, g: nat)
    requires n % 4 == 0 && g % 4 == 0 && IsPow2(g) && g <= 2 * n < 2 * g
    ensures g >= n + 4 && (g == n + 4 <==> IsPow2(n + 4))
  {
    hide Msb, IsPow2;
    if IsPow2(n + 4) {
      MsbUnique(2 * n, g);
      MsbUnique(2 * n, n + 4);
    }
  }

  lemma MsbMultiple(n: nat)
    requires n >= 4
    ensures Msb(n) % 4 == 0
  {
    assert Msb(n) == 2 * Msb(n / 2) && Msb(n / 2) == 2 * Msb(n / 2 / 2);
  }

  /** A request that leaves only 4 bytes of a new page. */
  lemma GrowthWithoutRoom()
    ensures GrowSize(4092, 4096) - 4092 == 4
  {
    hide Msb, IsPow2;
    PageIsPow2();
    MsbUnique(8184, 4096);
  }

  lemma PageIsPow2()
    ensures IsPow2(4096)
  {
    assert Msb(16) == 16;
    assert Msb(256) == 16 * Msb(16);
    assert Msb(4096) == 16 * Msb(256);
  }
}
