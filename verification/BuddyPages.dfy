/** The mathematics of the buddy allocator: page sets, aligned blocks and the canonical free lists. */
module BuddyPages {
  import opened Arith

  const PAGE_SIZE: nat := 4096
  const MAX_ORDER: nat := 10

  function Pow2(k: nat): (r: nat)
    ensures r > 0
  {
    if k == 0 then 1 else 2 * Pow2(k - 1)
  }

  lemma {:induction false} Pow2Grows(j: nat, k: nat)
    requires j <= k
    ensures Pow2(j) <= Pow2(k)
    decreases k
  {
    if j < k {
      Pow2Grows(j, k - 1);
    }
  }

  /** The index of the aligned block of 2^k pages that holds page x. */
  function Index(x: nat, k: nat): nat {
    if k == 0 then x else Index(x, k - 1) / 2
  }

  lemma {:induction false} IndexIsDiv(x: nat, k: nat)
    ensures Index(x, k) == x / Pow2(k)
  {
    if k > 0 {
      IndexIsDiv(x, k - 1);
      Doubled(x, Pow2(k - 1), Pow2(k));
    }
  }

  function FirstPage(k: nat, q: nat): nat {
    if k == 0 then q else FirstPage(k - 1, 2 * q)
  }

  function LastPage(k: nat, q: nat): nat {
    if k == 0 then q else LastPage(k - 1, 2 * q + 1)
  }

  /** The pages of block q of order k. */
  function Block(k: nat, q: nat): set<nat> {
    set x: nat | x <= LastPage(k, q) && Index(x, k) == q
  }

  lemma {:induction false} LastPageGrows(k: nat, q: nat)
    ensures LastPage(k, q) <= LastPage(k, q + 1)
  {
    if k > 0 {
      LastPageGrows(k - 1, 2 * q + 1);
      LastPageGrows(k - 1, 2 * q + 2);
    }
  }

  lemma {:induction false} UpToLast(k: nat, x: nat)
    ensures x <= LastPage(k, Index(x, k))
  {
    if k > 0 {
      UpToLast(k - 1, x);
      if Index(x, k - 1) == 2 * Index(x, k) {
        LastPageGrows(k - 1, 2 * Index(x, k));
      }
    }
  }

  lemma InBlock(k: nat, q: nat)
    ensures forall x: nat :: x in Block(k, q) <==> Index(x, k) == q
  {
    forall x: nat | Index(x, k) == q
      ensures x <= LastPage(k, q)
    {
      UpToLast(k, x);
    }
  }

  /** The first page of a block lies in it: no block is empty. */
  lemma {:induction false} FirstPageIn(k: nat, q: nat)
    ensures Index(FirstPage(k, q), k) == q
    ensures FirstPage(k, q) in Block(k, q)
  {
    if k > 0 {
      FirstPageIn(k - 1, 2 * q);
    }
    InBlock(k, q);
  }

  /** Every page of block q of order k is free. */
  ghost predicate WhollyFree(F: set<nat>, k: nat, q: nat) {
    forall x: nat :: Index(x, k) == q ==> x in F
  }

  /** Block q of order k is free and is not part of a larger free aligned block. */
  ghost predicate Maximal(F: set<nat>, k: nat, q: nat) {
    k <= MAX_ORDER && WhollyFree(F, k, q) && (k < MAX_ORDER ==> !WhollyFree(F, k + 1, q / 2))
  }

  /** Two pages in one small block are in one large block. */
  lemma {:induction false} Laminar(x: nat, y: nat, j: nat, k: nat)
    requires j <= k && Index(x, j) == Index(y, j)
    ensures Index(x, k) == Index(y, k)
  {
    if j < k {
      Laminar(x, y, j, k - 1);
    }
  }

  /** A block inside a wholly free block is wholly free. */
  lemma {:induction false} FreeBelow(F: set<nat>, x: nat, j: nat, k: nat)
    requires j <= k && WhollyFree(F, k, Index(x, k))
    ensures WhollyFree(F, j, Index(x, j))
  {
    forall y: nat | Index(y, j) == Index(x, j)
      ensures y in F
    {
      Laminar(x, y, j, k);
    }
  }

  /** Distinct maximal blocks share no page. */
  lemma MaximalDisjoint(F: set<nat>, j: nat, p: nat, k: nat, q: nat, x: nat)
    requires Maximal(F, j, p) && Maximal(F, k, q)
    requires Index(x, j) == p && Index(x, k) == q
    ensures j == k && p == q
  {
    if j < k {
      FreeBelow(F, x, j + 1, k);
    } else if k < j {
      FreeBelow(F, x, k + 1, j);
    }
  }

  /** Every free aligned block lies in a maximal one. */
  lemma {:induction false} Climb(F: set<nat>, x: nat, k: nat) returns (j: nat)
    requires k <= MAX_ORDER && WhollyFree(F, k, Index(x, k))
    ensures k <= j <= MAX_ORDER && Maximal(F, j, Index(x, j))
    decreases MAX_ORDER - k
  {
    if k == MAX_ORDER || !WhollyFree(F, k + 1, Index(x, k + 1)) {
      j := k;
    } else {
      j := Climb(F, x, k + 1);
    }
  }

  /** A maximal block stays maximal when another one is taken out. */
  lemma StaysMaximal(F: set<nat>, k: nat, q: nat, j: nat, r: nat)
    requires Maximal(F, k, q) && Maximal(F, j, r) && (j, r) != (k, q)
    ensures Maximal(F - Block(k, q), j, r)
  {
    var G := F - Block(k, q);
    InBlock(k, q);
    forall y: nat | Index(y, j) == r
      ensures y in G
    {
      if Index(y, k) == q {
        MaximalDisjoint(F, j, r, k, q, y);
      }
    }
    assert WhollyFree(G, j + 1, r / 2) ==> WhollyFree(F, j + 1, r / 2);
  }

  /** A block that is maximal once another was taken out was maximal before. */
  lemma WasMaximal(F: set<nat>, k: nat, q: nat, j: nat, r: nat)
    requires Maximal(F, k, q) && Maximal(F - Block(k, q), j, r)
    ensures Maximal(F, j, r) && (j, r) != (k, q)
  {
    var G := F - Block(k, q);
    InBlock(k, q);
    FirstPageIn(j, r);
    var x := FirstPage(j, r);
    assert x in G;
    assert WhollyFree(F, j, r);
    if j < MAX_ORDER && WhollyFree(F, j + 1, r / 2) {
      // the parent meets the block taken out, which then is not maximal
      var y: nat :| Index(y, j + 1) == r / 2 && y !in G;
      assert Index(y, k) == q;
      if j + 1 <= k {
        Laminar(x, y, j + 1, k);
        assert false;
      } else {
        FreeBelow(F, y, k + 1, j + 1);
        assert false;
      }
    }
  }

  /** Taking a maximal block out leaves the other maximal blocks as they were. */
  lemma RemoveMaximal(F: set<nat>, k: nat, q: nat, j: nat, r: nat)
    requires Maximal(F, k, q)
    ensures Maximal(F - Block(k, q), j, r) <==> Maximal(F, j, r) && (j, r) != (k, q)
  {
    if Maximal(F, j, r) && (j, r) != (k, q) {
      StaysMaximal(F, k, q, j, r);
    } else if Maximal(F - Block(k, q), j, r) {
      WasMaximal(F, k, q, j, r);
    }
  }

  /** Adding a block whose parent does not become free adds exactly that block. */
  lemma AddMaximal(F: set<nat>, k: nat, q: nat, j: nat, r: nat)
    requires k <= MAX_ORDER && F !! Block(k, q)
    requires k < MAX_ORDER ==> !WhollyFree(F + Block(k, q), k + 1, q / 2)
    ensures Maximal(F + Block(k, q), j, r) <==> Maximal(F, j, r) || (j, r) == (k, q)
  {
    var G := F + Block(k, q);
    assert WhollyFree(G, k, q) by {
      InBlock(k, q);
    }
    assert G - Block(k, q) == F;
    RemoveMaximal(G, k, q, j, r);
  }

  // ----- Lists -----

  ghost predicate Sorted(s: seq<nat>) {
    forall i, j :: 0 <= i < j < |s| ==> s[i] < s[j]
  }

  function SortedInsert(s: seq<nat>, a: nat): (r: seq<nat>)
    ensures |r| == |s| + 1
  {
    if s == [] || a < s[0] then [a] + s else [s[0]] + SortedInsert(s[1..], a)
  }

  function Remove(s: seq<nat>, a: nat): seq<nat> {
    if s == [] then [] else if s[0] == a then s[1..] else [s[0]] + Remove(s[1..], a)
  }

  lemma {:induction false} SortedInsertAt(s: seq<nat>, a: nat, i: nat)
    requires i <= |s|
    requires forall j :: 0 <= j < i ==> s[j] <= a
    requires i < |s| ==> a < s[i]
    ensures SortedInsert(s, a) == s[..i] + [a] + s[i..]
  {
    if i > 0 {
      SortedInsertAt(s[1..], a, i - 1);
      assert [s[0]] + (s[1..][..i - 1] + [a] + s[1..][i - 1..]) == s[..i] + [a] + s[i..];
    }
  }

  lemma {:induction false} RemoveAt(s: seq<nat>, i: nat)
    requires i < |s| && Sorted(s)
    ensures Remove(s, s[i]) == s[..i] + s[i + 1..]
  {
    if i > 0 {
      var t := s[1..];
      RemoveAt(t, i - 1);
      assert t[..i - 1] == s[1..i] && t[i..] == s[i + 1..];
      assert [s[0]] + s[1..i] == s[..i];
    }
  }

  /** The place where a belongs in a sorted list. */
  lemma {:induction false} Place(s: seq<nat>, a: nat) returns (i: nat)
    requires Sorted(s) && a !in s
    ensures i <= |s| && (forall j :: 0 <= j < i ==> s[j] < a) && (forall j :: i <= j < |s| ==> a < s[j])
  {
    if s == [] || a < s[0] {
      i := 0;
    } else {
      assert s[0] in s && forall x :: x in s[1..] ==> x in s;
      i := Place(s[1..], a);
      i := i + 1;
      assert forall j :: 1 <= j < |s| ==> s[j] == s[1..][j - 1];
    }
  }

  lemma SortedInsertSorted(s: seq<nat>, a: nat)
    requires Sorted(s) && a !in s
    ensures Sorted(SortedInsert(s, a))
    ensures forall x :: x in SortedInsert(s, a) <==> x in s || x == a
  {
    var i := Place(s, a);
    SortedInsertAt(s, a, i);
  }

  lemma {:induction false} RemoveElements(s: seq<nat>, a: nat)
    requires Sorted(s) && a in s
    ensures forall x :: x in Remove(s, a) <==> x in s && x != a
  {
    if s[0] != a {
      assert a in s[1..];
      RemoveElements(s[1..], a);
      assert forall x :: x in s <==> x == s[0] || x in s[1..];
    }
  }

  lemma RemoveSorted(s: seq<nat>, a: nat)
    requires Sorted(s) && a in s
    ensures Sorted(Remove(s, a))
    ensures forall x :: x in Remove(s, a) <==> x in s && x != a
  {
    var i :| 0 <= i < |s| && s[i] == a;
    RemoveAt(s, i);
    RemoveElements(s, a);
  }

  /** A sorted list is determined by its elements. */
  lemma {:induction false} SortedUnique(s: seq<nat>, t: seq<nat>)
    requires Sorted(s) && Sorted(t)
    requires forall x :: x in s <==> x in t
    ensures s == t
  {
    assert s != [] ==> s[0] in s;
    assert t != [] ==> t[0] in t;
    if s != [] && t != [] {
      assert s[0] == t[0];
      forall x
        ensures x in s[1..] <==> x in t[1..]
      {
        assert x in s[1..] <==> x in s && x != s[0];
        assert x in t[1..] <==> x in t && x != t[0];
      }
      SortedUnique(s[1..], t[1..]);
    }
  }

  // ----- Canonical lists -----

  /** Page p starts a block of order k, that is, p is a multiple of 2^k. */
  predicate Aligned(p: nat, k: nat) {
    k == 0 || (Aligned(p, k - 1) && Index(p, k - 1) % 2 == 0)
  }

  /** List k holds, in address order, the first pages of exactly the maximal free blocks of order k. */
  ghost predicate Canonical(L: seq<seq<nat>>, F: set<nat>) {
    |L| == MAX_ORDER + 1 && CanonicalUpTo(L, F, |L|)
  }

  ghost predicate CanonicalUpTo(L: seq<seq<nat>>, F: set<nat>, n: nat)
    requires n <= |L|
  {
    n == 0 || (CanonicalUpTo(L, F, n - 1) && CanonicalList(L[n - 1], F, n - 1))
  }

  ghost predicate CanonicalList(s: seq<nat>, F: set<nat>, k: nat) {
    Sorted(s) && forall a: nat :: a in s <==> Aligned(a, k) && Maximal(F, k, Index(a, k))
  }

  lemma {:induction false} CanonicalIff(L: seq<seq<nat>>, F: set<nat>, n: nat)
    requires n <= |L|
    ensures CanonicalUpTo(L, F, n) <==> forall k :: 0 <= k < n ==> CanonicalList(L[k], F, k)
  {
    if n > 0 {
      CanonicalIff(L, F, n - 1);
    }
  }

  lemma CanonicalAt(L: seq<seq<nat>>, F: set<nat>, k: nat)
    requires Canonical(L, F) && k <= MAX_ORDER
    ensures CanonicalList(L[k], F, k)
  {
    CanonicalIff(L, F, |L|);
  }

  lemma CanonicalIntro(L: seq<seq<nat>>, F: set<nat>)
    requires |L| == MAX_ORDER + 1 && forall k :: 0 <= k <= MAX_ORDER ==> CanonicalList(L[k], F, k)
    ensures Canonical(L, F)
  {
    CanonicalIff(L, F, |L|);
  }
}
