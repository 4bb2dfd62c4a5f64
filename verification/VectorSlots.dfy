/** The slots of a vector (lib/vector.c): a free slot holds the address of the next free one, tagged with 1,
    any other the address of its object. */
module VectorSlots {
  import opened Utils
  import opened Arith

  const NULL: nat := 0

  function SlotAddr(data: nat, i: nat): nat {
    data + 4 * i
  }

  /** The address of the k-th free slot, or null. */
  function AddrOf(data: nat, chain: seq<nat>, k: nat): nat {
    if k < |chain| then SlotAddr(data, chain[k]) else NULL
  }

  predicate Tagged(word: nat) {
    word % 2 == 1
  }

  ghost predicate LinkAt(words: seq<nat>, data: nat, chain: seq<nat>, k: nat) {
    k < |chain| && chain[k] < |words| && words[chain[k]] == AddrOf(data, chain, k + 1) + 1
  }

  /** Following the links from free visits exactly the tagged slots, each once, in the order of chain. */
  ghost predicate Threaded(words: seq<nat>, data: nat, free: nat, chain: seq<nat>) {
    && data > 0 && data % 4 == 0 && free == AddrOf(data, chain, 0) && Distinct(chain)
    && (forall k {:trigger LinkAt(words, data, chain, k)} :: 0 <= k < |chain| ==> LinkAt(words, data, chain, k))
    && forall i :: 0 <= i < |words| ==> (Tagged(words[i]) <==> i in chain)
  }

  /** What the vector stores: an object for each index whose slot is not tagged. */
  function Stored(words: seq<nat>): map<nat, nat> {
    map i: nat | i < |words| && !Tagged(words[i]) :: words[i]
  }

  /** A free slot's link. */
  lemma LinkOf(words: seq<nat>, data: nat, free: nat, chain: seq<nat>, k: nat)
    requires Threaded(words, data, free, chain) && k < |chain|
    ensures chain[k] < |words| && words[chain[k]] == AddrOf(data, chain, k + 1) + 1 && Tagged(words[chain[k]])
    ensures AddrOf(data, chain, k) == SlotAddr(data, chain[k]) > 0
  {
    assert LinkAt(words, data, chain, k);
  }

  /** The index of a slot address. */
  lemma IndexOf(data: nat, i: nat)
    ensures (SlotAddr(data, i) - data) / 4 == i
  {
  }

  /** There is no free slot exactly if the list begins with null. */
  lemma FreeNull(words: seq<nat>, data: nat, free: nat, chain: seq<nat>)
    requires Threaded(words, data, free, chain)
    ensures free == NULL <==> chain == []
    ensures free == NULL ==> forall i :: 0 <= i < |words| ==> !Tagged(words[i])
  {
  }

  /** Storing an object in a free slot. */
  lemma TakeStored(words: seq<nat>, data: nat, free: nat, chain: seq<nat>, k: nat, obj: nat)
    requires Threaded(words, data, free, chain) && k < |chain| && obj % 4 == 0
    requires forall j :: 0 <= j < |chain| ==> chain[j] < |words|
    ensures var linked := if k == 0 then words else words[chain[k - 1] := AddrOf(data, chain, k + 1) + 1];
            Stored(linked[chain[k] := obj]) == Stored(words)[chain[k] := obj]
    ensures chain[k] !in Stored(words)
  {
    hide Tagged, AddrOf;
    TagBits(data, chain, k + 1, obj);
    if k > 0 { assert chain[k - 1] in chain; }
  }

  /** Giving an object's slot back. */
  lemma GiveStored(words: seq<nat>, data: nat, free: nat, chain: seq<nat>, i: nat)
    requires Threaded(words, data, free, chain) && i < |words|
    ensures Stored(words[i := free + 1]) == Stored(words) - {i}
  {
    hide Tagged, AddrOf;
    TagBits(data, chain, 0, 0);
  }

  lemma Links(words: seq<nat>, data: nat, free: nat, chain: seq<nat>)
    requires Threaded(words, data, free, chain)
    ensures forall j :: 0 <= j < |chain| ==> chain[j] < |words|
  {
    forall j | 0 <= j < |chain|
      ensures chain[j] < |words|
    {
      assert LinkAt(words, data, chain, j);
    }
  }

  lemma FreeFirst(words: seq<nat>, data: nat, free: nat, chain: seq<nat>)
    requires Threaded(words, data, free, chain)
    ensures data > 0 && free == AddrOf(data, chain, 0) && (free == NULL <==> chain == [])
  {
    FreeNull(words, data, free, chain);
  }

  lemma AddrNull(data: nat, chain: seq<nat>, k: nat)
    requires data > 0
    ensures AddrOf(data, chain, k) == NULL <==> k >= |chain|
  {
  }

  /** Copying a vector without free slots to one whose other slots are linked. */
  lemma ExpandStored(words: seq<nat>, more: seq<nat>, data: nat)
    requires |words| <= |more| && data % 4 == 0
    requires forall i :: 0 <= i < |words| ==> more[i] == words[i]
    requires forall i :: |words| <= i < |more| ==>
                more[i] == (if i + 1 < |more| then SlotAddr(data, i + 1) else NULL) + 1
    ensures Stored(more) == Stored(words)
  {
    hide Tagged;
    forall i: nat | |words| <= i < |more|
      ensures Tagged(more[i])
    {
      TagBits(data, [i + 1], if i + 1 < |more| then 0 else 1, 0);
    }
  }

  // ----- Changes to the free list -----

  lemma DropIn(chain: seq<nat>, k: nat)
    requires k < |chain| && Distinct(chain)
    ensures forall i :: i in Cut(chain, k) <==> i in chain && i != chain[k]
    ensures Distinct(Cut(chain, k))
  {
    var r := Cut(chain, k);
    forall i
      ensures i in r <==> i in chain && i != chain[k]
    {
      if i in r {
        var j :| 0 <= j < |r| && r[j] == i;
        assert chain[if j < k then j else j + 1] == i;
      }
      if i in chain && i != chain[k] {
        var j :| 0 <= j < |chain| && chain[j] == i;
        assert r[if j < k then j else j - 1] == i;
      }
    }
  }

  /** The k-th free slot takes an object: its predecessor, or free, is linked to its successor. */
  lemma TakeSlot(words: seq<nat>, data: nat, free: nat, chain: seq<nat>, k: nat, obj: nat)
    requires Threaded(words, data, free, chain) && k < |chain| && obj % 4 == 0
    requires forall j :: 0 <= j < |chain| ==> chain[j] < |words|
    ensures var linked := if k == 0 then words else words[chain[k - 1] := AddrOf(data, chain, k + 1) + 1];
            Threaded(linked[chain[k] := obj], data, if k == 0 then AddrOf(data, chain, 1) else free, Cut(chain, k))
  {
    hide Tagged, AddrOf, LinkAt;
    var linked := if k == 0 then words else words[chain[k - 1] := AddrOf(data, chain, k + 1) + 1];
    var r, w := Cut(chain, k), linked[chain[k] := obj];
    DropIn(chain, k);
    AddrOfDrop(data, chain, k);
    TagBits(data, chain, k + 1, obj);
    forall j | 0 <= j < |r|
      ensures LinkAt(w, data, r, j)
    {
      TakeLink(words, data, free, chain, k, obj, j);
    }
    if k > 0 { assert chain[k - 1] in r by { assert r[k - 1] == chain[k - 1]; } }
  }

  lemma TagBits(data: nat, chain: seq<nat>, k: nat, obj: nat)
    requires data % 4 == 0 && obj % 4 == 0
    ensures Tagged(AddrOf(data, chain, k) + 1) && !Tagged(obj)
  {
    Untagged(obj);
    var d := data / 4;
    assert data == 4 * d;
    if k < |chain| {
      Untagged(4 * (d + chain[k]));
    }
  }

  lemma Untagged(a: nat)
    requires a % 4 == 0
    ensures !Tagged(a) && Tagged(a + 1)
  {
    var m := a / 4;
    assert a == 4 * m;
    DivUnique(a, 2, 2 * m, 0);
    DivUnique(a + 1, 2, 2 * m, 1);
  }

  lemma AddrOfDrop(data: nat, chain: seq<nat>, k: nat)
    requires k < |chain|
    ensures forall j: nat :: AddrOf(data, Cut(chain, k), j) == AddrOf(data, chain, if j < k then j else j + 1)
  {
  }

  lemma TakeLink(words: seq<nat>, data: nat, free: nat, chain: seq<nat>, k: nat, obj: nat, j: nat)
    requires Threaded(words, data, free, chain) && k < |chain| && j < |chain| - 1
    requires forall j :: 0 <= j < |chain| ==> chain[j] < |words|
    ensures var linked := if k == 0 then words else words[chain[k - 1] := AddrOf(data, chain, k + 1) + 1];
            LinkAt(linked[chain[k] := obj], data, Cut(chain, k), j)
  {
    hide Tagged, AddrOf;
    AddrOfDrop(data, chain, k);
    var m := if j < k then j else j + 1;
    assert LinkAt(words, data, chain, m);
    Different(chain, m, k);
    if k > 0 { Different(chain, m, k - 1); }
  }

  lemma Different(chain: seq<nat>, i: nat, j: nat)
    requires Distinct(chain) && i < |chain| && j < |chain|
    ensures chain[i] == chain[j] <==> i == j
  {
  }

  /** A slot that held an object becomes the first free one. */
  lemma GiveSlot(words: seq<nat>, data: nat, free: nat, chain: seq<nat>, i: nat)
    requires Threaded(words, data, free, chain) && i < |words| && !Tagged(words[i])
    ensures Threaded(words[i := free + 1], data, SlotAddr(data, i), [i] + chain)
  {
    hide Tagged, AddrOf, LinkAt;
    var r, w := [i] + chain, words[i := free + 1];
    assert i !in chain;
    TagBits(data, chain, 0, 0);
    AddrOfPut(data, chain, i);
    forall j | 0 <= j < |r|
      ensures LinkAt(w, data, r, j)
    {
      GiveLink(words, data, free, chain, i, j);
    }
  }

  lemma AddrOfPut(data: nat, chain: seq<nat>, i: nat)
    ensures AddrOf(data, [i] + chain, 0) == SlotAddr(data, i)
    ensures forall j: nat :: AddrOf(data, [i] + chain, j + 1) == AddrOf(data, chain, j)
  {
  }

  lemma GiveLink(words: seq<nat>, data: nat, free: nat, chain: seq<nat>, i: nat, j: nat)
    requires Threaded(words, data, free, chain) && i < |words| && i !in chain && j <= |chain|
    ensures LinkAt(words[i := free + 1], data, [i] + chain, j)
  {
    hide Tagged, AddrOf;
    AddrOfPut(data, chain, i);
    if j > 0 {
      assert LinkAt(words, data, chain, j - 1);
      assert ([i] + chain)[j] == chain[j - 1] && chain[j - 1] in chain;
    }
  }

  /** The slots from a up to b. */
  function Range(a: nat, b: nat): (r: seq<nat>)
    requires a <= b
    ensures |r| == b - a && forall j :: 0 <= j < |r| ==> r[j] == a + j
  {
    seq(b - a, j => a + j)
  }

  lemma RangeIn(a: nat, b: nat)
    requires a <= b
    ensures forall i: nat :: i in Range(a, b) <==> a <= i < b
  {
    var r := Range(a, b);
    forall i: nat
      ensures i in r <==> a <= i < b
    {
      if a <= i < b { assert r[i - a] == i; }
    }
  }

  /** Slots a to b - 1 that are linked one to the next, the last to null, while the others hold objects. */
  lemma RangeThreaded(words: seq<nat>, data: nat, a: nat)
    requires data > 0 && data % 4 == 0 && a < |words|
    requires forall i :: 0 <= i < a ==> !Tagged(words[i])
    requires forall i :: a <= i < |words| ==> words[i] == (if i + 1 < |words| then SlotAddr(data, i + 1) else NULL) + 1
    ensures Threaded(words, data, SlotAddr(data, a), Range(a, |words|))
  {
    var r := Range(a, |words|);
    RangeIn(a, |words|);
    forall k | 0 <= k < |r|
      ensures LinkAt(words, data, r, k)
    {
    }
  }
}
