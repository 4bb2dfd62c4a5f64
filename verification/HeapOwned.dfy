/** The kernel heap in memory: headers linked by address, and the owners of its bytes. */
module HeapOwned {
  import opened Utils
  import opened HeapBlocks
  import opened Owners

  const NULL: nat := 0

  // ----- Linked headers -----

  function NodeAt(s: seq<HeapBlock>, i: int): nat {
    if 0 <= i < |s| then s[i].addr else NULL
  }

  predicate LinkedAt(s: seq<HeapBlock>, i: nat, sizes: map<nat, nat>, nexts: map<nat, nat>)
    requires i < |s|
  {
    var a := s[i].addr;
    a in sizes && a in nexts && sizes[a] == s[i].size && nexts[a] == NodeAt(s, i + 1)
  }

  /** The headers in memory, linked from head on, are those of the blocks of s. */
  ghost predicate Linked(s: seq<HeapBlock>, head: nat, sizes: map<nat, nat>, nexts: map<nat, nat>) {
    && head == NodeAt(s, 0)
    && (forall i, j :: 0 <= i < j < |s| ==> s[i].addr < s[j].addr)
    && (forall i :: 0 <= i < |s| ==> s[i].addr > 0)
    && forall i {:trigger LinkedAt(s, i, sizes, nexts)} :: 0 <= i < |s| ==> LinkedAt(s, i, sizes, nexts)
  }

  lemma LinkMerge(s: seq<HeapBlock>, i: nat, head: nat, sizes: map<nat, nat>, nexts: map<nat, nat>)
    requires Linked(s, head, sizes, nexts) && i + 1 < |s|
    ensures var a, b := s[i].addr, s[i + 1].addr;
            a in sizes && b in sizes && a in nexts && b in nexts
    ensures var a, b := s[i].addr, s[i + 1].addr;
            a + sizes[a] == b ==>
              Linked(Merge(s, i), head, sizes[a := sizes[a] + sizes[b]], nexts[a := nexts[b]])
    ensures var a, b := s[i].addr, s[i + 1].addr; a + sizes[a] != b ==> Merge(s, i) == s
  {
    hide LinkedAt, Merge;
    var a, b := s[i].addr, s[i + 1].addr;
    LinkedNode(s, i, head, sizes, nexts);
    LinkedNode(s, i + 1, head, sizes, nexts);
    MergeShape(s, i);
    if a + sizes[a] == b {
      var t, sizes', nexts' := Merge(s, i), sizes[a := sizes[a] + sizes[b]], nexts[a := nexts[b]];
      forall j | 0 <= j < |s| - 1
        ensures t[j].addr == s[if j <= i then j else j + 1].addr
      {
        MergeNode(s, i, j, head, sizes, nexts);
      }
      forall j | 0 <= j < |s| - 1
        ensures LinkedAt(t, j, sizes', nexts')
      {
        MergeNode(s, i, j, head, sizes, nexts);
      }
      assert t[0].addr == s[0].addr;
      assert Linked(t, head, sizes', nexts');
    }
  }

  lemma MergeShape(s: seq<HeapBlock>, i: nat)
    requires i + 1 < |s|
    ensures End(s[i]) == s[i + 1].addr ==> |Merge(s, i)| == |s| - 1
    ensures End(s[i]) != s[i + 1].addr ==> Merge(s, i) == s
  {
  }

  lemma MergeNode(s: seq<HeapBlock>, i: nat, j: nat, head: nat, sizes: map<nat, nat>, nexts: map<nat, nat>)
    requires Linked(s, head, sizes, nexts) && i + 1 < |s| && End(s[i]) == s[i + 1].addr && j < |s| - 1
    ensures |Merge(s, i)| == |s| - 1 && Merge(s, i)[j].addr == s[if j <= i then j else j + 1].addr
    ensures var a, b := s[i].addr, s[i + 1].addr;
            && a in sizes && b in sizes && a in nexts && b in nexts
            && LinkedAt(Merge(s, i), j, sizes[a := sizes[a] + sizes[b]], nexts[a := nexts[b]])
  {
    var t := Merge(s, i);
    assert LinkedAt(s, i, sizes, nexts) && LinkedAt(s, i + 1, sizes, nexts);
    assert LinkedAt(s, if j <= i then j else j + 1, sizes, nexts);
    assert t[j] == if j < i then s[j] else if j == i then HeapBlock(s[i].addr, s[i].size + s[i + 1].size) else s[j + 1];
    assert j + 1 < |t| ==> t[j + 1].addr == s[if j + 1 <= i then j + 1 else j + 2].addr;
  }

  lemma LinkGrow(s: seq<HeapBlock>, i: nat, n: nat, head: nat, sizes: map<nat, nat>, nexts: map<nat, nat>)
    requires Linked(s, head, sizes, nexts) && i < |s|
    ensures Linked(Grown(s, i, n), head, sizes[s[i].addr := s[i].size + n], nexts)
  {
    var t, sizes' := Grown(s, i, n), sizes[s[i].addr := s[i].size + n];
    forall j | 0 <= j < |t|
      ensures LinkedAt(t, j, sizes', nexts)
    {
      assert LinkedAt(s, j, sizes, nexts);
    }
  }

  lemma LinkShrink(s: seq<HeapBlock>, i: nat, n: nat, head: nat, sizes: map<nat, nat>, nexts: map<nat, nat>)
    requires Linked(s, head, sizes, nexts) && i < |s| && n <= s[i].size
    ensures Linked(s[i := HeapBlock(s[i].addr, s[i].size - n)], head, sizes[s[i].addr := s[i].size - n], nexts)
  {
    var t, sizes' := s[i := HeapBlock(s[i].addr, s[i].size - n)], sizes[s[i].addr := s[i].size - n];
    forall j | 0 <= j < |t|
      ensures LinkedAt(t, j, sizes', nexts)
    {
      assert LinkedAt(s, j, sizes, nexts);
    }
  }

  /** A new header at place i, linked from its predecessor. */
  lemma LinkPut(s: seq<HeapBlock>, i: nat, b: HeapBlock, head: nat, sizes: map<nat, nat>, nexts: map<nat, nat>)
    requires Linked(s, head, sizes, nexts) && i <= |s| && b.addr > 0
    requires (i > 0 ==> s[i - 1].addr < b.addr) && (i < |s| ==> b.addr < s[i].addr)
    ensures var nexts' := nexts[b.addr := NodeAt(s, i)];
            Linked(InsertAt(s, i, b), if i == 0 then b.addr else head, sizes[b.addr := b.size],
                   if i == 0 then nexts' else nexts'[s[i - 1].addr := b.addr])
  {
    hide LinkedAt;
    var sizes', nexts' := sizes[b.addr := b.size], nexts[b.addr := NodeAt(s, i)];
    var nexts'' := if i == 0 then nexts' else nexts'[s[i - 1].addr := b.addr];
    forall j | 0 <= j <= |s|
      ensures LinkedAt(InsertAt(s, i, b), j, sizes', nexts'')
    {
      PutNode(s, i, b, j, head, sizes, nexts);
    }
  }

  lemma PutNode(s: seq<HeapBlock>, i: nat, b: HeapBlock, j: nat, head: nat, sizes: map<nat, nat>, nexts: map<nat, nat>)
    requires Linked(s, head, sizes, nexts) && i <= |s| && j <= |s|
    requires (i > 0 ==> s[i - 1].addr < b.addr) && (i < |s| ==> b.addr < s[i].addr)
    ensures var nexts' := nexts[b.addr := NodeAt(s, i)];
            LinkedAt(InsertAt(s, i, b), j, sizes[b.addr := b.size],
                     if i == 0 then nexts' else nexts'[s[i - 1].addr := b.addr])
  {
    hide InsertAt;
    var t := InsertAt(s, i, b);
    if j < i {
      assert LinkedAt(s, j, sizes, nexts) && s[j].addr < b.addr && (j < i - 1 ==> s[j].addr < s[i - 1].addr);
    } else if j > i {
      assert LinkedAt(s, j - 1, sizes, nexts) && b.addr < s[j - 1].addr && (i > 0 ==> s[i - 1].addr < s[j - 1].addr);
    }
  }

  lemma LinkWithout(s: seq<HeapBlock>, i: nat, head: nat, sizes: map<nat, nat>, nexts: map<nat, nat>)
    requires Linked(s, head, sizes, nexts) && i < |s|
    ensures Linked(Cut(s, i), if i == 0 then NodeAt(s, 1) else head, sizes,
                   if i == 0 then nexts else nexts[s[i - 1].addr := NodeAt(s, i + 1)])
  {
    var t := Cut(s, i);
    var nexts' := if i == 0 then nexts else nexts[s[i - 1].addr := NodeAt(s, i + 1)];
    forall j | 0 <= j < |t|
      ensures LinkedAt(t, j, sizes, nexts')
    {
      assert LinkedAt(s, if j < i then j else j + 1, sizes, nexts);
    }
  }

  lemma LinkedNode(s: seq<HeapBlock>, i: nat, head: nat, sizes: map<nat, nat>, nexts: map<nat, nat>)
    requires Linked(s, head, sizes, nexts) && i < |s|
    ensures s[i].addr > 0 && s[i].addr in sizes && s[i].addr in nexts
    ensures sizes[s[i].addr] == s[i].size && nexts[s[i].addr] == NodeAt(s, i + 1)
  {
    assert LinkedAt(s, i, sizes, nexts);
  }

  lemma LinkedHead(s: seq<HeapBlock>, head: nat, sizes: map<nat, nat>, nexts: map<nat, nat>)
    requires Linked(s, head, sizes, nexts)
    ensures head == NodeAt(s, 0) && (head == NULL <==> s == [])
    ensures s != [] ==> head in sizes && head in nexts && sizes[head] == s[0].size
  {
    if s != [] { LinkedNode(s, 0, head, sizes, nexts); }
  }

  // ----- Owners -----

  /** Live allocations are proper blocks and pairwise disjoint. */
  ghost predicate LiveOk(live: map<nat, nat>) {
    LiveApart(live) && forall a :: a in live ==> BlockOk(HeapBlock(a, live[a]))
  }

  lemma LiveOkMore(live: map<nat, nat>, a: nat, n: nat)
    requires LiveOk(live) && BlockOk(HeapBlock(a, n)) && forall x: nat :: a <= x < a + n ==> !Lives(live, x)
    ensures a !in live && LiveOk(live[a := n])
  {
    hide Lives;
    LiveApartMore(live, a, n);
  }

  /** kmalloc from a block of the list. */
  lemma OwnedTake(s: seq<HeapBlock>, live: map<nat, nat>, lost: set<nat>, arena: set<nat>, i: nat, n: nat)
    requires Heap(s) && LiveOk(live) && Owned(s, live, lost, arena)
    requires i < |s| && s[i].size >= n && n >= HEADER && n % 4 == 0
    ensures var b := Taken(s, i, n);
            b.addr > 0 && b.addr !in live && LiveOk(live[b.addr := n])
            && Owned(TakeFrom(s, i, n), live[b.addr := n], lost + Bytes(b.addr + n, b.size - n), arena)
  {
    hide Covers, Lives, TakeFrom;
    var b := Taken(s, i, n);
    TakeKeeps(s, i, n);
    assert forall x: nat :: b.addr <= x < b.addr + n ==> In(b, x);
    LiveOkMore(live, b.addr, n);
    forall x: nat
      ensures Lives(live[b.addr := n], x) <==> Lives(live, x) || b.addr <= x < b.addr + n
    {
      LivesMore(live, b.addr, n, x);
    }
    assert forall x: nat :: In(b, x) <==> b.addr <= x < b.addr + n || x in Bytes(b.addr + n, b.size - n);
  }

  /** kmalloc from new memory at a: rest bytes for the list, n for the caller. */
  lemma OwnedGrow(s: seq<HeapBlock>, live: map<nat, nat>, lost: set<nat>, arena: set<nat>, a: nat, rest: nat, n: nat)
    requires LiveOk(live) && Owned(s, live, lost, arena) && BlockOk(HeapBlock(a + rest, n))
    requires Fits(s, a, rest) && forall x: nat :: a <= x < a + rest + n ==> x !in arena
    ensures a + rest !in live && LiveOk(live[a + rest := n])
    ensures Owned(Insert(s, a, rest), live[a + rest := n], lost, arena + Bytes(a, rest + n))
  {
    hide Covers, Lives, Insert;
    LiveOkMore(live, a + rest, n);
    forall x: nat
      ensures Lives(live[a + rest := n], x) <==> Lives(live, x) || a + rest <= x < a + rest + n
      ensures Covers(Insert(s, a, rest), x) <==> Covers(s, x) || a <= x < a + rest
    {
      LivesMore(live, a + rest, n, x);
      InsertCovers(s, a, rest, x);
    }
  }

  /** kfree. */
  lemma OwnedFree(s: seq<HeapBlock>, live: map<nat, nat>, lost: set<nat>, arena: set<nat>, a: nat)
    requires Heap(s) && LiveOk(live) && Owned(s, live, lost, arena) && a in live
    ensures Outside(s, a, live[a]) && Heap(Insert(s, a, live[a])) && LiveOk(live - {a})
    ensures Owned(Insert(s, a, live[a]), live - {a}, lost, arena)
  {
    hide Covers, Lives, Insert, Heap;
    var n := live[a];
    forall x: nat
      ensures Lives(live - {a}, x) <==> Lives(live, x) && !(a <= x < a + n)
      ensures a <= x < a + n ==> Lives(live, x)
      ensures Covers(Insert(s, a, n), x) <==> Covers(s, x) || a <= x < a + n
    {
      LivesLess(live, a, x);
      LiveByte(live, a, x);
      InsertCovers(s, a, n, x);
    }
    InsertHeap(s, a, n);
  }

  /** n bytes at p were taken from the first block that is large enough; what the block has beyond them
      and cannot be a block of its own is lost. */
  ghost predicate TakenFromList(s: seq<HeapBlock>, live: map<nat, nat>, lost: set<nat>, arena: set<nat>,
                                s': seq<HeapBlock>, live': map<nat, nat>, lost': set<nat>, arena': set<nat>,
                                n: nat, p: nat) {
    var i := FirstFit(s, n);
    && i < |s| && p == Taken(s, i, n).addr && s' == TakeFrom(s, i, n)
    && live' == live[p := n] && lost' == lost + Bytes(p + n, Taken(s, i, n).size - n) && arena' == arena
  }

  /** n bytes at p were taken from the end of g new bytes at ptr. */
  ghost predicate TakenFromGrowth(s: seq<HeapBlock>, live: map<nat, nat>, lost: set<nat>, arena: set<nat>,
                                  s': seq<HeapBlock>, live': map<nat, nat>, lost': set<nat>, arena': set<nat>,
                                  n: nat, p: nat, ptr: nat, g: nat) {
    && n < g && p == ptr + (g - n) && s' == Insert(s, ptr, g - n)
    && live' == live[p := n] && lost' == lost && arena' == arena + Bytes(ptr, g)
  }

  /** New memory that the heap can take in: aligned, not its own yet, and what remains of it after the n
      bytes of the request has room for a header or extends a block. */
  ghost predicate Fresh(s: seq<HeapBlock>, arena: set<nat>, ptr: nat, n: nat, g: nat) {
    && ptr > 0 && ptr % 4 == 0 && g > n && (g - n) % 4 == 0
    && (forall x: nat :: ptr <= x < ptr + g ==> x !in arena)
    && Fits(s, ptr, g - n)
  }

  /** The free list follows from what is live and what is lost alone, whatever was allocated and released
      before and in whatever order. */
  lemma HistoryForgotten(s: seq<HeapBlock>, t: seq<HeapBlock>, live: map<nat, nat>, lost: set<nat>, arena: set<nat>)
    requires Heap(s) && Heap(t) && Owned(s, live, lost, arena) && Owned(t, live, lost, arena)
    ensures s == t
  {
    hide Covers, Lives;
    HeapUnique(s, t);
  }
}
