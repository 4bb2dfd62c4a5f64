/** Quotients and remainders. */
module Arith {

  lemma Doubled(x: nat, m: nat, M: nat)
    requires m > 0 && M == 2 * m
    ensures x / M == x / m / 2
    ensures x % M == 0 <==> x % m == 0 && x / m % 2 == 0
  {
    var q, r := x / m, x % m;
    assert x == m * q + r;
    Regroup(m, M, q);
    if q % 2 == 0 {
      DivUnique(x, M, q / 2, r);
    } else {
      DivUnique(x, M, q / 2, m + r);
    }
  }

  lemma Regroup(m: nat, M: nat, q: nat)
    requires M == 2 * m
    ensures m * q == M * (q / 2) + (if q % 2 == 0 then 0 else m)
  {
    var h := q / 2;
    assert m * (2 * h) == M * h;
    assert m * (2 * h + 1) == M * h + m;
  }

  lemma DivUnique(x: nat, m: nat, q: nat, r: nat)
    requires m > 0 && r < m
    requires x == m * q + r
    ensures x / m == q && x % m == r
  {
    var q', r' := x / m, x % m;
    assert m * q + r == m * q' + r';
    Spread(m, q, q', r, r');
  }

  lemma Spread(m: nat, q: nat, q': nat, r: nat, r': nat)
    requires r < m && r' < m && m * q + r == m * q' + r'
    ensures q == q' && r == r'
  {
    if q < q' {
      assert m * (q' - q) == m * q' - m * q;
      AtLeast(m, q' - q);
    } else if q' < q {
      assert m * (q - q') == m * q - m * q';
      AtLeast(m, q - q');
    }
  }

  lemma {:induction false} AtLeast(m: nat, d: nat)
    requires d > 0
    ensures m * d >= m
  {
    if d > 1 {
      AtLeast(m, d - 1);
      assert m * d == m * (d - 1) + m;
    }
  }

  lemma Cancel(m: nat, a: nat, b: nat)
    requires m > 0 && m * b <= m * a
    ensures b <= a
  {
    if a < b {
      assert m * (b - a) == m * b - m * a;
      AtLeast(m, b - a);
    }
  }

  predicate IsMultiple(x: nat, m: nat) {
    m > 0 && x % m == 0
  }

  lemma TimesIsMultiple(m: nat, k: nat)
    requires m > 0
    ensures IsMultiple(m * k, m)
  {
    DivUnique(m * k, m, k, 0);
  }

  lemma MultipleSum(x: nat, y: nat, m: nat)
    requires IsMultiple(x, m) && IsMultiple(y, m)
    ensures IsMultiple(x + y, m)
  {
    assert x + y == m * (x / m + y / m);
    TimesIsMultiple(m, x / m + y / m);
  }

  lemma MultipleDifference(x: nat, y: nat, m: nat)
    requires IsMultiple(x, m) && IsMultiple(y, m) && y <= x
    ensures IsMultiple(x - y, m) && (x - y < m ==> x == y)
  {
    var q, r := x / m, y / m;
    Cancel(m, q, r);
    assert x - y == m * (q - r);
    TimesIsMultiple(m, q - r);
    if x - y < m { DivUnique(x - y, m, 0, x - y); }
  }
}
