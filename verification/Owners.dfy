/** Who owns each byte that an allocator was given: its free blocks, a live allocation, or nobody. */
module Owners {
  import opened HeapBlocks

  function Bytes(a: nat, n: nat): (s: set<nat>)
    ensures forall x :: x in s <==> a <= x < a + n
  {
    if n == 0 then {} else Bytes(a, n - 1) + {a + (n - 1)}
  }

  /** Byte x belongs to a live allocation. */
  ghost predicate Lives(live: map<nat, nat>, x: nat) {
    exists a :: a in live && a <= x < a + live[a]
  }

  /** Live allocations are not empty and pairwise disjoint. */
  ghost predicate LiveApart(live: map<nat, nat>) {
    && (forall a :: a in live ==> a > 0 && live[a] > 0)
    && forall a, b :: a in live && b in live && a < b ==> a + live[a] <= b
  }

  /** Each byte that an allocator was given is free, or live, or lost, and only one of these. */
  ghost predicate Owned(s: seq<HeapBlock>, live: map<nat, nat>, lost: set<nat>, arena: set<nat>) {
    && (forall x: nat :: x in arena <==> Covers(s, x) || Lives(live, x) || x in lost)
    && (forall x: nat :: Covers(s, x) ==> !Lives(live, x) && x !in lost)
    && forall x: nat :: Lives(live, x) ==> x !in lost
  }

  lemma LivesMore(live: map<nat, nat>, a: nat, n: nat, x: nat)
    requires a !in live
    ensures Lives(live[a := n], x) <==> Lives(live, x) || a <= x < a + n
  {
    var more := live[a := n];
    if Lives(live, x) {
      var b :| b in live && b <= x < b + live[b];
      assert b in more && more[b] == live[b];
    }
    if a <= x < a + n { assert a in more; }
  }

  lemma LivesLess(live: map<nat, nat>, a: nat, x: nat)
    requires LiveApart(live) && a in live
    ensures Lives(live - {a}, x) <==> Lives(live, x) && !(a <= x < a + live[a])
  {
    var less := live - {a};
    if Lives(live, x) && !(a <= x < a + live[a]) {
      var b :| b in live && b <= x < b + live[b];
      assert b in less;
    }
    if Lives(less, x) {
      var b :| b in less && b <= x < b + less[b];
      assert b in live && b != a;
      assert b < a ==> b + live[b] <= a;
      assert a < b ==> a + live[a] <= b;
    }
  }

  /** A new allocation of bytes that are not live leaves the live ones disjoint. */
  lemma LiveApartMore(live: map<nat, nat>, a: nat, n: nat)
    requires LiveApart(live) && a > 0 && n > 0 && forall x: nat :: a <= x < a + n ==> !Lives(live, x)
    ensures a !in live && LiveApart(live[a := n])
  {
    assert a in live ==> Lives(live, a);
    forall b | b in live
      ensures b < a ==> b + live[b] <= a
      ensures a < b ==> a + n <= b
    {
      assert b < a && b + live[b] > a ==> Lives(live, a);
      assert a < b && a + n > b ==> b <= b < b + live[b] && Lives(live, b);
    }
  }

  lemma LiveByte(live: map<nat, nat>, a: nat, x: nat)
    requires a in live
    ensures a <= x < a + live[a] ==> Lives(live, x)
  {
  }
}
