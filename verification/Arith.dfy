/** Facts about products, quotients and remainders, stated once and used by name. */
module Arith {

  lemma MulNonNeg(a: nat, b: nat)
    ensures 0 <= a * b
  {
    if a > 0 {
      MulNonNeg(a - 1, b);
      assert a * b == (a - 1) * b + b;
    }
  }

  /** Multiples of `m` are at least `m` apart. */
  lemma MultiplesApart(m: nat, i: int, j: int)
    requires i < j
    ensures i * m + m <= j * m
  {
    var d := j - i - 1;
    MulNonNeg(d, m);
    assert (i + 1 + d) * m == i * m + m + d * m;
  }

  /** Quotient and remainder are unique. */
  lemma DivModUnique(v: int, m: int, q: int, r: int)
    requires 0 <= r < m && v == q * m + r
    ensures v / m == q && v % m == r
  {
    var q' := v / m;
    assert v == q' * m + v % m && 0 <= v % m < m;
    if q < q' {
      MultiplesApart(m, q, q');
    } else if q' < q {
      MultiplesApart(m, q', q);
    }
  }

  /** Removing a multiple does not change the remainder. */
  lemma ModAddMultiple(v: int, m: int, k: int)
    requires 0 < m
    ensures (v + k * m) / m == v / m + k && (v + k * m) % m == v % m
  {
    assert v == v / m * m + v % m;
    assert v + k * m == (v / m + k) * m + v % m;
    DivModUnique(v + k * m, m, v / m + k, v % m);
  }

  lemma TwoDigitBound(lo: nat, mid: nat, a: nat, b: nat)
    requires lo < a && mid < b
    ensures 0 <= lo + mid * a < b * a
  {
    MulNonNeg(mid, a);
    MultiplesApart(a, mid, b);
  }

  /** A remainder modulo `b * a` has a low digit modulo `a` and a high digit modulo `b`. */
  lemma TwoDigits(v: nat, a: nat, b: nat)
    requires 0 < a && 0 < b
    ensures 0 < b * a
    ensures v % (b * a) == v % a + v / a % b * a
    ensures v / (b * a) == v / a / b
  {
    var lo, mid, q := v % a, v / a % b, v / a / b;
    TwoDigitBound(lo, mid, a, b);
    assert v / a == q * b + mid;
    assert v == (v / a) * a + lo;
    Regroup(q, b, mid, a);
    DivModUnique(v, b * a, q, lo + mid * a);
  }

  lemma Regroup(q: int, b: int, mid: int, a: int)
    ensures (q * b + mid) * a == q * (b * a) + mid * a
  {
  }

  /** A quotient stays below `n` exactly while the dividend stays below `n` divisors. */
  lemma DivBelow(j: nat, m: nat, n: nat)
    requires 0 < m
    ensures 0 <= j / m
    ensures j / m < n <==> j < n * m
  {
    var q := j / m;
    assert j == q * m + j % m;
    if q < n {
      MultiplesApart(m, q, n);
    } else if n < q {
      MultiplesApart(m, n, q);
    }
  }

  lemma {:induction false} SubsetSize<T>(a: set<T>, b: set<T>)
    requires a <= b
    ensures |a| <= |b|
  {
    if a != {} {
      var x :| x in a;
      SubsetSize(a - {x}, b - {x});
    }
  }
}
