/** Facts about products and quotients of reals. */
module Arithmetic {

  lemma ProductFacts(f: real, t: real, w: real)
    requires w == f * t
    ensures t == 0.0 ==> w == 0.0
    ensures t > 0.0 && f >= 1.0 ==> w >= t
    ensures t > 0.0 && f < 1.0 ==> w < t
  {
    var e := f - 1.0;
    assert e * t == f * t - t;
    assert t > 0.0 && e >= 0.0 ==> e * t >= 0.0;
    assert t > 0.0 && e < 0.0 ==> e * t < 0.0;
  }

  lemma RatioIs(v: real, b: real, q: real)
    requires b != 0.0 && v == q * b
    ensures v / b == q
  {
  }

  lemma MulAbove(p: real, q: real, g: real, x: real)
    requires p > q && g > 0.0 && q * g == x
    ensures p * g > x
  {
    assert (p - q) * g > 0.0;
  }

  lemma Quotient(x: real, g: real) returns (q: real)
    requires g > 0.0
    ensures q * g == x && q == x / g
    ensures x > 0.0 ==> q > 0.0
    ensures x >= 0.0 ==> q >= 0.0
  {
    q := x / g;
  }

  lemma Above(q: real) returns (n: nat)
    requires q > 0.0
    ensures n > 0 && n as real > q
  {
    n := q.Floor + 1;
  }

  /** Enough parts to make one of them finer than `gap`. */
  lemma FineEnough(gap: real, x: real) returns (parts: nat)
    requires gap > 0.0 && x > 0.0
    ensures parts > 0 && parts as real * gap > x
  {
    var q := Quotient(x, gap);
    parts := Above(q);
    MulAbove(parts as real, q, gap, x);
  }

  /** The largest whole number of `unit`s below `y`. */
  lemma Truncated(y: real, unit: real) returns (m: nat)
    requires y >= 0.0 && unit > 0.0
    ensures m as real * unit <= y < m as real * unit + unit
  {
    var q := Quotient(y, unit);
    m := q.Floor;
    var mm := m as real;
    assert mm <= q < mm + 1.0;
    TruncatedBounds(mm, q, unit, y);
  }

  lemma TruncatedBounds(mm: real, q: real, unit: real, y: real)
    requires mm <= q < mm + 1.0 && unit > 0.0 && q * unit == y
    ensures mm * unit <= y < mm * unit + unit
  {
    var a, b := q - mm, mm + 1.0 - q;
    assert a * unit >= 0.0 && b * unit > 0.0;
    assert a * unit == q * unit - mm * unit;
    assert b * unit == mm * unit + unit - q * unit;
  }

  lemma CancelBelow(a: real, b: real, p: real)
    requires p > 0.0 && a * p < b * p
    ensures a < b
  {
    assert a >= b ==> (a - b) * p >= 0.0;
  }

  lemma ScaledRatio(c: real, mm: real, p: real, r: real, y: real)
    requires p > 0.0 && r == c * (mm / p) && y == mm * c
    ensures r * p == y
  {
    var q := Quotient(mm, p);
    assert c * q * p == c * (q * p);
  }

  lemma AtMostByScaling(r: real, top: real, p: real, y: real)
    requires p > 0.0 && r * p == y && y <= top * p
    ensures r <= top
  {
    assert r > top ==> (r - top) * p > 0.0;
  }

  lemma AboveByScaling(lo: real, top: real, r: real, p: real, y: real, c: real)
    requires p > 0.0 && r * p == y && top * p < y + c && p * (top - lo) > c
    ensures lo < r
  {
    assert lo >= r ==> (lo - r) * p >= 0.0;
  }

  /** A fraction strictly above `lo` and at most `hi`, in units of `c`; below `c` itself when asked. */
  lemma Fraction(lo: real, hi: real, proper: bool, c: real) returns (parts: nat, m: nat, r: real)
    requires 0.0 <= lo < hi && c > 0.0 && (proper ==> lo < c)
    ensures parts > 0 && (proper ==> m < parts)
    ensures r == c * (m as real / parts as real) && lo < r <= hi
  {
    var mid := (lo + c) / 2.0;
    var top := if proper && hi > mid then mid else hi;
    parts := FineEnough(top - lo, c);
    var p := parts as real;
    assert top * p >= 0.0;
    m := Truncated(top * p, c);
    r := c * (m as real / p);
    var y := m as real * c;
    ScaledRatio(c, m as real, p, r, y);
    AtMostByScaling(r, top, p, y);
    AboveByScaling(lo, top, r, p, y, c);
    if proper { BelowByScaling(m as real, p, c, top, y); }
  }

  lemma BelowByScaling(mm: real, p: real, c: real, top: real, y: real)
    requires c > 0.0 && p > 0.0 && top < c && y == mm * c && y <= top * p
    ensures mm < p
  {
    assert (c - top) * p > 0.0;
    assert mm >= p ==> (mm - p) * c >= 0.0;
  }
}
