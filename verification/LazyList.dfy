/** The free list of a chunk of objects of one size (lib/allocator.c): explicit links through the first
    words of freed objects, followed by the objects that were never used, which need no links. */
module LazyList {
  import opened Utils
  import opened Arith

  const NULL: nat := 0

  function ObjAddr(data: nat, step: nat, i: nat): nat {
    data + i * step
  }

  /** The objects of a chunk: their first words, the address of the first and the distance of two. */
  datatype Chunk = Chunk(words: seq<nat>, data: nat, step: nat)

  function Addr(c: Chunk, i: nat): nat {
    ObjAddr(c.data, c.step, i)
  }

  function AddrAt(c: Chunk, list: seq<nat>, j: nat): nat {
    if j < |list| then Addr(c, list[j]) else NULL
  }

  /** Entry j of the free list: the objects from unused on were never used, in order, and come last; the
      others link to their successor. */
  ghost predicate EntryOk(c: Chunk, list: seq<nat>, unused: nat, j: nat) {
    j < |list| && list[j] < |c.words|
    && var explicit := |list| - (|c.words| - unused);
       if j < explicit then list[j] < unused && c.words[list[j]] == AddrAt(c, list, j + 1)
       else list[j] == unused + (j - explicit) && c.words[list[j]] == NULL
  }

  /** list holds exactly the free objects of a chunk, free is the address of the first. */
  ghost predicate Lazy(c: Chunk, list: seq<nat>, unused: nat, free: nat) {
    && c.data > 0 && c.step > 0 && unused <= |c.words| && |c.words| - unused <= |list|
    && Distinct(list) && free == AddrAt(c, list, 0)
    && (forall j {:trigger EntryOk(c, list, unused, j)} :: 0 <= j < |list| ==> EntryOk(c, list, unused, j))
    && forall i :: unused <= i < |c.words| ==> c.words[i] == NULL
  }

  // ----- Addresses -----

  lemma AddrIndex(c: Chunk, i: nat)
    requires c.step > 0
    ensures Addr(c, i) >= c.data && (Addr(c, i) - c.data) / c.step == i
    ensures Addr(c, i + 1) == Addr(c, i) + c.step
  {
    DivUnique(i * c.step, c.step, i, 0);
    assert (i + 1) * c.step == i * c.step + c.step;
  }

  // ----- Getting an object -----

  /** The first free object. */
  lemma FirstFree(c: Chunk, list: seq<nat>, unused: nat, free: nat)
    requires Lazy(c, list, unused, free)
    ensures free == NULL <==> list == []
    ensures list != [] ==>
              && list[0] < |c.words| && free == Addr(c, list[0])
              && c.words[list[0]] == (if |list| > |c.words| - unused then AddrAt(c, list, 1) else NULL)
    ensures list != [] && c.words[list[0]] == NULL && |list| > 1 ==> list[1] == list[0] + 1
  {
    if list != [] {
      assert EntryOk(c, list, unused, 0);
      assert |list| > 1 ==> EntryOk(c, list, unused, 1);
    }
  }

  /** The list once its first object was taken, whose link is cleared. */
  lemma TakeFirst(c: Chunk, list: seq<nat>, unused: nat, free: nat)
    requires Lazy(c, list, unused, free) && list != [] && list[0] < |c.words|
    ensures var unused' := if |list| > |c.words| - unused then unused else unused + 1;
            Lazy(c.(words := c.words[list[0] := NULL]), list[1..], unused', AddrAt(c, list, 1))
    ensures list[0] !in list[1..]
  {
    var r, c' := list[1..], c.(words := c.words[list[0] := NULL]);
    var unused' := if |list| > |c.words| - unused then unused else unused + 1;
    assert EntryOk(c, list, unused, 0);
    assert forall j: nat :: AddrAt(c', r, j) == AddrAt(c, list, j + 1);
    forall j | 0 <= j < |r|
      ensures EntryOk(c', r, unused', j)
    {
      assert EntryOk(c, list, unused, j + 1);
      assert list[j + 1] != list[0];
    }
  }

  lemma UnusedIsFree(c: Chunk, list: seq<nat>, unused: nat, free: nat, i: nat)
    requires Lazy(c, list, unused, free) && i < |c.words|
    ensures unused <= i ==> i in list
  {
    if unused <= i {
      var j := |list| - (|c.words| - unused) + (i - unused);
      assert EntryOk(c, list, unused, j);
    }
  }

  /** A used object that is not free comes first once it was freed, linked to what was first before. */
  lemma PutFirst(c: Chunk, list: seq<nat>, unused: nat, free: nat, i: nat)
    requires Lazy(c, list, unused, free) && i < |c.words| && i !in list
    ensures i < unused && Lazy(c.(words := c.words[i := free]), [i] + list, unused, Addr(c, i))
  {
    UnusedIsFree(c, list, unused, free, i);
    var r, c' := [i] + list, c.(words := c.words[i := free]);
    assert forall j: nat :: AddrAt(c', r, j + 1) == AddrAt(c, list, j);
    forall j | 0 <= j < |r|
      ensures EntryOk(c', r, unused, j)
    {
      if j > 0 {
        assert EntryOk(c, list, unused, j - 1);
        assert list[j - 1] in list;
      }
    }
  }

  /** What its user writes to an object that is not free does not matter. */
  lemma WriteUsed(c: Chunk, list: seq<nat>, unused: nat, free: nat, i: nat, word: nat)
    requires Lazy(c, list, unused, free) && i < |c.words| && i !in list
    ensures Lazy(c.(words := c.words[i := word]), list, unused, free)
  {
    PutFirst(c, list, unused, free, i);
    var c' := c.(words := c.words[i := word]);
    assert forall j: nat :: AddrAt(c', list, j) == AddrAt(c, list, j);
    forall j | 0 <= j < |list|
      ensures EntryOk(c', list, unused, j)
    {
      assert EntryOk(c, list, unused, j);
      assert list[j] in list;
    }
  }

  /** The objects of a new chunk. */
  function All(n: nat): (r: seq<nat>)
    ensures |r| == n && forall j :: 0 <= j < n ==> r[j] == j
  {
    seq(n, j => j)
  }

  lemma NewChunk(c: Chunk)
    requires c.data > 0 && c.step > 0 && forall i :: 0 <= i < |c.words| ==> c.words[i] == NULL
    ensures Lazy(c, All(|c.words|), 0, if |c.words| > 0 then c.data else NULL)
    ensures forall i: nat :: i in All(|c.words|) <==> i < |c.words|
  {
    var r := All(|c.words|);
    forall j | 0 <= j < |r|
      ensures EntryOk(c, r, 0, j)
    {
    }
    forall i: nat
      ensures i in r <==> i < |r|
    {
      if i < |r| { assert r[i] == i; }
    }
  }
}
