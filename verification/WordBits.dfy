/** 32-bit words as bits, for msb32 of memory/kheap.c: the highest power of two in a number, found by
    spreading the top bit downwards. */
module WordBits {
  import opened BuddyPages

  const WORD: nat := 0x1_0000_0000

  /** Bit i has the weight 2^i. */
  type Word = w: seq<bool> | |w| == 32 witness seq(32, _ => false)

  function Shr(w: Word, k: nat): Word {
    seq(32, i requires 0 <= i < 32 => i + k < 32 && w[i + k])
  }

  function Or(v: Word, w: Word): Word {
    seq(32, i requires 0 <= i < 32 => v[i] || w[i])
  }

  function AndNot(v: Word, w: Word): Word {
    seq(32, i requires 0 <= i < 32 => v[i] && !w[i])
  }

  function Value(w: seq<bool>): nat {
    if w == [] then 0 else (if w[0] then 1 else 0) + 2 * Value(w[1..])
  }

  function Bits(n: nat, k: nat): (w: seq<bool>)
    ensures |w| == k
  {
    if k == 0 then [] else [n % 2 == 1] + Bits(n / 2, k - 1)
  }

  lemma {:induction false} ValueOfBits(n: nat, k: nat)
    requires n < Pow2(k)
    ensures Value(Bits(n, k)) == n
  {
    if k > 0 {
      ValueOfBits(n / 2, k - 1);
      assert Bits(n, k)[1..] == Bits(n / 2, k - 1);
    }
  }

  /** The highest power of two that is not above n. */
  function Msb(n: nat): nat {
    if n <= 1 then n else 2 * Msb(n / 2)
  }

  predicate IsPow2(n: nat) {
    n > 0 && Msb(n) == n
  }

  lemma {:induction false} MsbBounds(n: nat)
    requires n > 0
    ensures Msb(n) <= n < 2 * Msb(n) && IsPow2(Msb(n))
  {
    if n > 1 {
      MsbBounds(n / 2);
      assert Msb(n) / 2 == Msb(n / 2);
    }
  }

  /** A power of two lies between n and its highest power of two only if it is that one. */
  lemma {:induction false} MsbUnique(n: nat, p: nat)
    requires IsPow2(p) && p <= n < 2 * p
    ensures Msb(n) == p
  {
    if p > 1 {
      assert p == 2 * Msb(p / 2);
      MsbBounds(p / 2);
      MsbUnique(n / 2, p / 2);
    }
  }

  /** Bit t is the highest one set. */
  ghost predicate Top(w: seq<bool>, t: nat) {
    t < |w| && w[t] && forall j :: t < j < |w| ==> !w[j]
  }

  lemma {:induction false} NoBits(w: seq<bool>)
    requires forall j :: 0 <= j < |w| ==> !w[j]
    ensures Value(w) == 0
  {
    if w != [] { NoBits(w[1..]); }
  }

  lemma {:induction false} TopValue(w: seq<bool>, t: nat)
    requires Top(w, t)
    ensures Value(w) > 0 && Msb(Value(w)) == Pow2(t)
  {
    if t == 0 {
      NoBits(w[1..]);
    } else {
      TopValue(w[1..], t - 1);
      assert Value(w) / 2 == Value(w[1..]);
    }
  }

  lemma {:induction false} OneBit(w: seq<bool>, t: nat)
    requires t < |w| && forall j :: 0 <= j < |w| ==> w[j] == (j == t)
    ensures Value(w) == Pow2(t)
  {
    if t == 0 {
      NoBits(w[1..]);
    } else {
      OneBit(w[1..], t - 1);
    }
  }

  lemma {:induction false} HasTop(w: seq<bool>) returns (t: nat)
    requires exists j :: 0 <= j < |w| && w[j]
    ensures Top(w, t)
  {
    if w[|w| - 1] {
      t := |w| - 1;
    } else {
      t := HasTop(w[..|w| - 1]);
    }
  }

  /** y has the bits that x has in the d places from there upwards. */
  ghost predicate Spread(x: Word, y: Word, d: nat) {
    forall i :: 0 <= i < 32 ==> (y[i] <==> exists j :: i <= j < i + d && j < 32 && x[j])
  }

  lemma SpreadTwice(x: Word, y: Word, d: nat)
    requires Spread(x, y, d)
    ensures Spread(x, Or(y, Shr(y, d)), 2 * d)
  {
    var z := Or(y, Shr(y, d));
    forall i | 0 <= i < 32
      ensures z[i] <==> exists j :: i <= j < i + 2 * d && j < 32 && x[j]
    {
      assert z[i] == (y[i] || (i + d < 32 && y[i + d]));
      if exists j :: i <= j < i + 2 * d && j < 32 && x[j] {
        var j :| i <= j < i + 2 * d && j < 32 && x[j];
        assert j < i + d || i + d <= j;
      }
    }
  }

  /** The highest bit of a number, alone. */
  method msb32(n: nat) returns (r: nat)
    requires n < WORD
    ensures r == Msb(n)
  {
    var x: Word := Bits(n, 32);
    var y: Word := Or(x, Shr(x, 1));
    assert Spread(x, x, 1);
    SpreadTwice(x, x, 1);
    ghost var y1 := y;
    y := Or(y, Shr(y, 2));
    SpreadTwice(x, y1, 2);
    ghost var y2 := y;
    y := Or(y, Shr(y, 4));
    SpreadTwice(x, y2, 4);
    ghost var y3 := y;
    y := Or(y, Shr(y, 8));
    SpreadTwice(x, y3, 8);
    ghost var y4 := y;
    y := Or(y, Shr(y, 16));
    SpreadTwice(x, y4, 16);
    var z: Word := AndNot(y, Shr(y, 1));
    r := Value(z);
    Isolated(n, x, y, z);
  }

  lemma Isolated(n: nat, x: Word, y: Word, z: Word)
    requires n < WORD && x == Bits(n, 32) && Spread(x, y, 32) && z == AndNot(y, Shr(y, 1))
    ensures Value(z) == Msb(n)
  {
    assert Msb(0) == 0;
    hide Value, Bits, Msb;
    WordSize();
    ValueOfBits(n, 32);
    if exists j :: 0 <= j < 32 && x[j] {
      var t := HasTop(x);
      TopValue(x, t);
      TopAlone(x, y, z, t);
      OneBit(z, t);
    } else {
      NoBits(x);
      NoBits(z);
    }
  }

  lemma TopAlone(x: Word, y: Word, z: Word, t: nat)
    requires Spread(x, y, 32) && z == AndNot(y, Shr(y, 1)) && Top(x, t)
    ensures forall j :: 0 <= j < 32 ==> z[j] == (j == t)
  {
    forall j | 0 <= j < 32
      ensures y[j] <==> j <= t
    {
    }
    assert forall j :: 0 <= j < 32 ==> z[j] == (y[j] && !(j + 1 < 32 && y[j + 1]));
  }

  lemma WordSize()
    ensures Pow2(32) == WORD
  {
    assert Pow2(8) == 256;
    Pow2Sum(8, 8);
    Pow2Sum(16, 16);
  }

  lemma {:induction false} Pow2Sum(a: nat, b: nat)
    ensures Pow2(a + b) == Pow2(a) * Pow2(b)
  {
    if a > 0 { Pow2Sum(a - 1, b); }
  }
}
