/** The parts that anonymous memory is made of (memory/mmap.c): the powers of two of its size. */
module GetPages {
  import opened BuddyPages
  import opened WordBits

  /** A part of memory: its size and its physical address. */
  datatype Mbv = Mbv(size: nat, data: nat)

  function RoundUpPage(size: nat): (r: nat)
    ensures r >= size && r < size + PAGE_SIZE && r % PAGE_SIZE == 0
  {
    (size + PAGE_SIZE - 1) / PAGE_SIZE * PAGE_SIZE
  }

  function Total(sizes: seq<nat>): nat {
    if sizes == [] then 0 else Total(sizes[..|sizes| - 1]) + sizes[|sizes| - 1]
  }

  lemma TotalMore(sizes: seq<nat>, n: nat)
    ensures Total(sizes + [n]) == Total(sizes) + n
  {
    assert (sizes + [n])[..|sizes|] == sizes;
  }

  /** Powers of two, whole pages each, every one smaller than the one before. */
  ghost predicate Binary(sizes: seq<nat>) {
    && (forall i :: 0 <= i < |sizes| ==> IsPow2(sizes[i]) && sizes[i] % PAGE_SIZE == 0)
    && forall i, j :: 0 <= i < j < |sizes| ==> sizes[i] > sizes[j]
  }

  lemma MsbDouble(x: nat)
    ensures Msb(2 * x) == 2 * Msb(x)
  {
    assert 2 * x / 2 == x;
  }

  lemma Doubling(p: nat, n: nat)
    ensures 2 * p * n == 2 * (p * n)
  {
  }

  lemma {:induction false} MsbScale(n: nat, k: nat)
    ensures Msb(Pow2(k) * n) == Pow2(k) * Msb(n)
  {
    hide Msb;
    if k > 0 {
      MsbScale(n, k - 1);
      var p := Pow2(k - 1);
      Doubling(p, n);
      Doubling(p, Msb(n));
      MsbDouble(p * n);
    }
  }

  /** The highest power of two of a number of whole pages is a number of whole pages. */
  lemma MsbPages(size: nat)
    requires size % PAGE_SIZE == 0
    ensures Msb(size) % PAGE_SIZE == 0
  {
    hide Msb;
    PageIs();
    MsbScale(size / PAGE_SIZE, 12);
  }

  lemma PageIs()
    ensures Pow2(12) == PAGE_SIZE
  {
    assert Pow2(4) == 16;
    assert Pow2(8) == 16 * Pow2(4);
    assert Pow2(12) == 16 * Pow2(8);
  }

  /** Without its highest bit a number of m + 1 bits has m. */
  lemma RestBelow(size: nat, m: nat)
    requires size > 0 && size < Pow2(m + 1)
    ensures size - Msb(size) < Pow2(m) && Msb(size) <= size && size - Msb(size) < Msb(size)
  {
    MsbBounds(size);
    Pow2IsPow2(m);
    if Msb(size) > Pow2(m) {
      MsbBetween(Msb(size), m);
    }
  }

  lemma {:induction false} Pow2IsPow2(m: nat)
    ensures IsPow2(Pow2(m))
  {
    if m > 0 {
      Pow2IsPow2(m - 1);
      assert Pow2(m) / 2 == Pow2(m - 1);
    }
  }

  /** No power of two lies strictly between 2^m and 2^(m + 1). */
  lemma MsbBetween(p: nat, m: nat)
    requires IsPow2(p) && Pow2(m) <= p < Pow2(m + 1)
    ensures p == Pow2(m)
  {
    Pow2IsPow2(m);
    MsbUnique(p, Pow2(m));
  }

  /** What is left to split after some parts. */
  ghost predicate Splitting(sizes: seq<nat>, rest: nat, total: nat) {
    && |sizes| <= 32 && rest < Pow2(32 - |sizes|) && rest % PAGE_SIZE == 0
    && Binary(sizes) && Total(sizes) + rest == total && (sizes != [] ==> rest < sizes[|sizes| - 1])
  }

  lemma SplitStart(size: nat)
    requires size + PAGE_SIZE <= WORD
    ensures Splitting([], RoundUpPage(size), RoundUpPage(size))
  {
    WordSize();
  }

  lemma SplitMore(sizes: seq<nat>, rest: nat, total: nat)
    requires Splitting(sizes, rest, total) && rest > 0
    ensures |sizes| < 32 && rest < WORD && Msb(rest) <= rest && Splitting(sizes + [Msb(rest)], rest - Msb(rest), total)
  {
    hide Msb, IsPow2;
    assert Pow2(0) == 1;
    RestBelow(rest, 32 - |sizes| - 1);
    MsbBounds(rest);
    MsbPages(rest);
    PagesLess(rest, Msb(rest));
    TotalMore(sizes, Msb(rest));
    WordSize();
    Pow2Grows(32 - |sizes|, 32);
  }

  lemma PagesLess(a: nat, b: nat)
    requires a % PAGE_SIZE == 0 && b % PAGE_SIZE == 0 && b <= a
    ensures (a - b) % PAGE_SIZE == 0
  {
  }

  /** The sizes of the parts, in a buffer of 32 entries. */
  method Split(size: nat) returns (helper: array<nat>, i: nat)
    requires size + PAGE_SIZE <= WORD
    ensures fresh(helper) && i <= helper.Length == 32
    ensures Binary(helper[..i]) && Total(helper[..i]) == RoundUpPage(size)
  {
    hide Msb, Total, Binary, RoundUpPage;
    helper := new nat[32];
    var rest := RoundUpPage(size);
    i := 0;
    SplitStart(size);
    assert helper[..0] == [];
    while rest > 0
      invariant i <= 32 && Splitting(helper[..i], rest, RoundUpPage(size))
    {
      ghost var was: seq<nat> := helper[..i];
      SplitMore(was, rest, RoundUpPage(size));
      helper[i] := msb32(rest);
      assert helper[..i + 1] == was + [helper[i]];
      // The exclusive or clears the highest bit
      rest := rest - helper[i];
      i := i + 1;
    }
  }

  function Sizes(mbv: seq<Mbv>): (s: seq<nat>)
    ensures |s| == |mbv| && forall i :: 0 <= i < |mbv| ==> s[i] == mbv[i].size
  {
    seq(|mbv|, i requires 0 <= i < |mbv| => mbv[i].size)
  }

  /** The parts for size bytes; memory gives the address of each part in turn. */
  method GetPages(size: nat, memory: nat -> nat) returns (mbv: seq<Mbv>)
    requires size + PAGE_SIZE <= WORD
    ensures |mbv| <= 32 && Binary(Sizes(mbv)) && Total(Sizes(mbv)) == RoundUpPage(size)
    ensures forall j :: 0 <= j < |mbv| ==> mbv[j].data == memory(j)
  {
    hide Total, Binary, RoundUpPage;
    var helper, i := Split(size);
    mbv := [];
    var j := 0;
    while j < i
      invariant j <= i && |mbv| == j && forall k :: 0 <= k < j ==> mbv[k] == Mbv(helper[k], memory(k))
    {
      mbv := mbv + [Mbv(helper[j], memory(j))];
      j := j + 1;
    }
    assert Sizes(mbv) == helper[..i];
  }
}
