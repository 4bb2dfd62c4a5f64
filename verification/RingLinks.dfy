/** Circular doubly linked block headers in memory, by address. */
module RingLinks {
  import opened Utils
  import opened HeapBlocks
  import opened PoolRing

  const NULL: nat := 0

  function Succ(i: nat, n: nat): (r: nat)
    requires i < n
    ensures r < n
  {
    if i + 1 == n then 0 else i + 1
  }

  predicate Node(s: seq<HeapBlock>, i: nat, sizes: map<nat, nat>, next: map<nat, nat>, prev: map<nat, nat>)
    requires i < |s|
  {
    var a := s[i].addr;
    && a in sizes && a in next && a in prev
    && sizes[a] == s[i].size && next[a] == s[Succ(i, |s|)].addr && prev[a] == s[Pred(i, |s|)].addr
  }

  ghost predicate Named(s: seq<HeapBlock>) {
    && (forall i :: 0 <= i < |s| ==> s[i].addr > 0)
    && forall i, j :: 0 <= i < j < |s| ==> s[i].addr != s[j].addr
  }

  /** The headers in memory are those of the blocks of s, linked in a circle in that order. */
  ghost predicate Looped(s: seq<HeapBlock>, sizes: map<nat, nat>, next: map<nat, nat>, prev: map<nat, nat>) {
    && Named(s)
    && forall i {:trigger Node(s, i, sizes, next, prev)} :: 0 <= i < |s| ==> Node(s, i, sizes, next, prev)
  }

  function HeadOf(s: seq<HeapBlock>): nat {
    if s == [] then NULL else s[0].addr
  }

  lemma LoopNode(s: seq<HeapBlock>, i: nat, sizes: map<nat, nat>, next: map<nat, nat>, prev: map<nat, nat>)
    requires Looped(s, sizes, next, prev) && i < |s|
    ensures Node(s, i, sizes, next, prev) && s[i].addr > 0
  {
  }

  lemma Same(s: seq<HeapBlock>, i: nat, j: nat)
    requires Named(s) && i < |s| && j < |s| && s[i].addr == s[j].addr
    ensures i == j
  {
  }

  lemma LoopTurn(s: seq<HeapBlock>, sizes: map<nat, nat>, next: map<nat, nat>, prev: map<nat, nat>)
    requires Looped(s, sizes, next, prev) && s != []
    ensures Looped(Turned(s), sizes, next, prev)
  {
    var t := Turned(s);
    forall j | 0 <= j < |t|
      ensures Node(t, j, sizes, next, prev)
    {
      assert Node(s, Pred(j, |s|), sizes, next, prev);
    }
  }

  lemma LoopGrow(s: seq<HeapBlock>, i: nat, n: nat, sizes: map<nat, nat>, next: map<nat, nat>, prev: map<nat, nat>)
    requires Looped(s, sizes, next, prev) && i < |s|
    ensures Looped(Grown(s, i, n), sizes[s[i].addr := s[i].size + n], next, prev)
  {
    var t, sizes' := Grown(s, i, n), sizes[s[i].addr := s[i].size + n];
    forall j | 0 <= j < |t|
      ensures Node(t, j, sizes', next, prev)
    {
      assert Node(s, j, sizes, next, prev);
      if s[j].addr == s[i].addr { Same(s, i, j); }
    }
  }

  /** A new header before block i. */
  lemma LoopPut(s: seq<HeapBlock>, i: nat, b: HeapBlock, sizes: map<nat, nat>, next: map<nat, nat>, prev: map<nat, nat>)
    requires Looped(s, sizes, next, prev) && i < |s| && b.addr > 0 && forall j :: 0 <= j < |s| ==> s[j].addr != b.addr
    ensures var p := Pred(i, |s|);
            Looped(InsertAt(s, i, b), sizes[b.addr := b.size], next[b.addr := s[i].addr][s[p].addr := b.addr],
                   prev[b.addr := s[p].addr][s[i].addr := b.addr])
  {
    hide Node, Named;
    var p, t := Pred(i, |s|), InsertAt(s, i, b);
    var sizes', next', prev' := sizes[b.addr := b.size], next[b.addr := s[i].addr][s[p].addr := b.addr],
      prev[b.addr := s[p].addr][s[i].addr := b.addr];
    PutNamed(s, i, b);
    forall j | 0 <= j < |t|
      ensures Node(t, j, sizes', next', prev')
    {
      if j == i {
        PutItself(s, i, b, sizes, next, prev);
      } else {
        PutOther(s, i, b, j, sizes, next, prev);
      }
    }
  }

  lemma PutNamed(s: seq<HeapBlock>, i: nat, b: HeapBlock)
    requires Named(s) && i < |s| && b.addr > 0 && forall j :: 0 <= j < |s| ==> s[j].addr != b.addr
    ensures Named(InsertAt(s, i, b))
  {
  }

  lemma PutItself(s: seq<HeapBlock>, i: nat, b: HeapBlock, sizes: map<nat, nat>, next: map<nat, nat>,
                  prev: map<nat, nat>)
    requires i < |s| && forall j :: 0 <= j < |s| ==> s[j].addr != b.addr
    ensures var p := Pred(i, |s|);
            Node(InsertAt(s, i, b), i, sizes[b.addr := b.size], next[b.addr := s[i].addr][s[p].addr := b.addr],
                 prev[b.addr := s[p].addr][s[i].addr := b.addr])
  {
    var t, p := InsertAt(s, i, b), Pred(i, |s|);
    assert t[i] == b && t[Succ(i, |t|)] == s[i] && t[Pred(i, |t|)] == s[p];
  }

  lemma PutOther(s: seq<HeapBlock>, i: nat, b: HeapBlock, j: nat, sizes: map<nat, nat>, next: map<nat, nat>,
                 prev: map<nat, nat>)
    requires Looped(s, sizes, next, prev) && i < |s| && j <= |s| && j != i
    requires forall k :: 0 <= k < |s| ==> s[k].addr != b.addr
    ensures var p := Pred(i, |s|);
            Node(InsertAt(s, i, b), j, sizes[b.addr := b.size], next[b.addr := s[i].addr][s[p].addr := b.addr],
                 prev[b.addr := s[p].addr][s[i].addr := b.addr])
  {
    hide InsertAt;
    var k, p := if j < i then j else j - 1, Pred(i, |s|);
    assert Node(s, k, sizes, next, prev);
    PutNode(s, i, b, j);
    if s[k].addr == s[p].addr { Same(s, k, p); }
    if s[k].addr == s[i].addr { Same(s, k, i); }
  }

  /** Neighbours after a new header came before block i. */
  lemma PutNode(s: seq<HeapBlock>, i: nat, b: HeapBlock, j: nat)
    requires i < |s| && j <= |s| && j != i
    ensures var k := if j < i then j else j - 1; var t := InsertAt(s, i, b);
            && t[j] == s[k]
            && t[Succ(j, |t|)] == (if k == Pred(i, |s|) then b else s[Succ(k, |s|)])
            && t[Pred(j, |t|)] == (if k == i then b else s[Pred(k, |s|)])
  {
  }

  /** Another header in the place of block i. */
  lemma LoopReplace(s: seq<HeapBlock>, i: nat, b: HeapBlock, sizes: map<nat, nat>, next: map<nat, nat>,
                    prev: map<nat, nat>)
    requires Looped(s, sizes, next, prev) && i < |s| && b.addr > 0 && forall j :: 0 <= j < |s| ==> s[j].addr != b.addr
    ensures var t, sizes' := s[i := b], sizes[b.addr := b.size];
            && (|s| == 1 ==> Looped(t, sizes', next[b.addr := b.addr], prev[b.addr := b.addr]))
            && (|s| > 1 ==>
                  var x, y := s[Pred(i, |s|)].addr, s[Succ(i, |s|)].addr;
                  Looped(t, sizes', next[b.addr := y][x := b.addr], prev[b.addr := x][y := b.addr]))
  {
    var t, sizes' := s[i := b], sizes[b.addr := b.size];
    if |s| == 1 {
      assert Node(t, 0, sizes', next[b.addr := b.addr], prev[b.addr := b.addr]);
    } else {
      var p, q := Pred(i, |s|), Succ(i, |s|);
      var next', prev' := next[b.addr := s[q].addr][s[p].addr := b.addr],
        prev[b.addr := s[p].addr][s[q].addr := b.addr];
      forall j | 0 <= j < |t|
        ensures Node(t, j, sizes', next', prev')
      {
        assert Node(s, j, sizes, next, prev);
        if s[j].addr == s[p].addr { Same(s, j, p); }
        if s[j].addr == s[q].addr { Same(s, j, q); }
      }
    }
  }

  /** The links of a ring of several blocks without block i. */
  lemma LoopRemove(s: seq<HeapBlock>, i: nat, sizes: map<nat, nat>, next: map<nat, nat>, prev: map<nat, nat>)
    requires Looped(s, sizes, next, prev) && i < |s| && |s| > 1
    ensures var x, y := s[Pred(i, |s|)].addr, s[Succ(i, |s|)].addr;
            Looped(Cut(s, i), sizes, next[x := y], prev[y := x])
  {
    var t, p, q := Cut(s, i), Pred(i, |s|), Succ(i, |s|);
    var next', prev' := next[s[p].addr := s[q].addr], prev[s[q].addr := s[p].addr];
    forall j | 0 <= j < |t|
      ensures Node(t, j, sizes, next', prev')
    {
      var k := if j < i then j else j + 1;
      assert Node(s, k, sizes, next, prev);
      RemoveNode(s, i, j);
      if s[k].addr == s[p].addr { Same(s, k, p); }
      if s[k].addr == s[q].addr { Same(s, k, q); }
    }
  }

  lemma RemoveNode(s: seq<HeapBlock>, i: nat, j: nat)
    requires i < |s| && j < |s| - 1
    ensures var k := if j < i then j else j + 1; var t := Cut(s, i);
            && t[j] == s[k]
            && t[Succ(j, |t|)] == (if k == Pred(i, |s|) then s[Succ(i, |s|)] else s[Succ(k, |s|)])
            && t[Pred(j, |t|)] == (if k == Succ(i, |s|) then s[Pred(i, |s|)] else s[Pred(k, |s|)])
  {
  }

  /** Block k leaves, and the one before it grows. */
  lemma LoopBridge(s: seq<HeapBlock>, k: nat, n: nat, sizes: map<nat, nat>, next: map<nat, nat>, prev: map<nat, nat>)
    requires Looped(s, sizes, next, prev) && 0 < k < |s|
    ensures var x, y := s[k - 1], s[Succ(k, |s|)].addr;
            Looped(Bridged(s, k, n), sizes[x.addr := x.size + (n + s[k].size)], next[x.addr := y], prev[y := x.addr])
    ensures HeadOf(Bridged(s, k, n)) == s[0].addr
  {
    hide Looped, Named, Node;
    var x, y := s[k - 1].addr, s[Succ(k, |s|)].addr;
    LoopRemove(s, k, sizes, next, prev);
    LoopGrow(Cut(s, k), k - 1, n + s[k].size, sizes, next[x := y], prev[y := x]);
  }

  // ----- What the links say -----

  lemma LoopLinks(s: seq<HeapBlock>, i: nat, sizes: map<nat, nat>, next: map<nat, nat>, prev: map<nat, nat>)
    requires Looped(s, sizes, next, prev) && i < |s|
    ensures var a := s[i].addr;
            && a > 0 && a in sizes && a in next && a in prev
            && sizes[a] == s[i].size && next[a] == s[Succ(i, |s|)].addr && prev[a] == s[Pred(i, |s|)].addr
  {
    LoopNode(s, i, sizes, next, prev);
  }

  lemma LoopSame(s: seq<HeapBlock>, i: nat, j: nat, sizes: map<nat, nat>, next: map<nat, nat>, prev: map<nat, nat>)
    requires Looped(s, sizes, next, prev) && i < |s| && j < |s|
    ensures s[i].addr == s[j].addr <==> i == j
  {
    if s[i].addr == s[j].addr { Same(s, i, j); }
  }

  lemma LoopHead(s: seq<HeapBlock>, sizes: map<nat, nat>, next: map<nat, nat>, prev: map<nat, nat>)
    requires Looped(s, sizes, next, prev)
    ensures HeadOf(s) == NULL <==> s == []
  {
    if s != [] { LoopNode(s, 0, sizes, next, prev); }
  }

  lemma LoopEmpty(sizes: map<nat, nat>, next: map<nat, nat>, prev: map<nat, nat>)
    ensures Looped([], sizes, next, prev)
  {
  }

  lemma LoopOne(b: HeapBlock, sizes: map<nat, nat>, next: map<nat, nat>, prev: map<nat, nat>)
    requires b.addr > 0 && b.addr in sizes && b.addr in next && b.addr in prev
    requires sizes[b.addr] == b.size && next[b.addr] == b.addr && prev[b.addr] == b.addr
    ensures Looped([b], sizes, next, prev)
  {
    assert Node([b], 0, sizes, next, prev);
  }

  /** The size at an address that is not in the ring does not matter. */
  lemma LoopFrame(s: seq<HeapBlock>, a: nat, n: nat, sizes: map<nat, nat>, next: map<nat, nat>, prev: map<nat, nat>)
    requires Looped(s, sizes, next, prev) && forall j :: 0 <= j < |s| ==> s[j].addr != a
    ensures Looped(s, sizes[a := n], next, prev)
  {
    var sizes' := sizes[a := n];
    forall j | 0 <= j < |s|
      ensures Node(s, j, sizes', next, prev)
    {
      assert Node(s, j, sizes, next, prev);
    }
  }

  /** A run that is not free shares no address with a block. */
  lemma RunNames(s: seq<HeapBlock>, a: nat, n: nat, align: nat)
    requires align > 0 && Ring(s, align) && Outside(s, a, n) && n > 0
    ensures forall j :: 0 <= j < |s| ==> s[j].addr != a && s[j].size > 0
  {
    RunApart(s, a, n, align);
  }

  /** The rest of a trimmed block has an address of its own. */
  lemma RestNames(s: seq<HeapBlock>, i: nat, n: nat, align: nat)
    requires align > 0 && Ring(s, align) && i < |s| && 0 < n < s[i].size
    ensures forall j :: 0 <= j < |s| ==> s[j].addr != s[i].addr + n
    ensures forall j :: 0 <= j < |s| ==> s[j].addr == s[i].addr ==> j == i
  {
    forall j | 0 <= j < |s| && j != i
      ensures s[j].addr != s[i].addr + n && s[j].addr != s[i].addr
    {
      Apart2(s, i, j);
    }
  }
}
