/** Half-up rounding of an exact quotient, the only rounding rule of the commercial scenario. */
module Rounding {

  function Abs(x: int): (r: nat)
    ensures r == x || r == -x
  {
    if x < 0 then -x else x
  }

  /** The quotient n / d rounded to the nearest integer, halves away from zero.
      `/` and `%` act on non-negative operands only, where they agree with BigInt's truncation. */
  function Nearest(n: int, d: int): int
    requires d > 0
  {
    var magnitude := Abs(n);
    var rounded := magnitude / d + (if 2 * (magnitude % d) >= d then 1 else 0);
    if n < 0 then -rounded else rounded
  }

  /** What Nearest means: q is the one integer whose half-open half-unit interval holds n / d. */
  ghost predicate IsNearest(n: int, d: int, q: int) {
    if n >= 0
    then 2 * (q * d) - d <= 2 * n < 2 * (q * d) + d
    else 2 * (q * d) - d < 2 * n <= 2 * (q * d) + d
  }

  lemma NearestIsNearest(n: int, d: int)
    requires d > 0
    ensures IsNearest(n, d, Nearest(n, d))
    ensures n >= 0 ==> Nearest(n, d) >= 0
    ensures n <= 0 ==> Nearest(n, d) <= 0
  {
    MagnitudeIsNearest(Abs(n), d);
    if n < 0 {
      var q := Nearest(Abs(n), d);
      NegateProduct(q, d);
    }
  }

  lemma NegateProduct(q: int, d: int)
    ensures (-q) * d == -(q * d)
  {
  }

  lemma MagnitudeIsNearest(m: nat, d: int)
    requires d > 0
    ensures IsNearest(m, d, Nearest(m, d)) && Nearest(m, d) >= 0
  {
    var q, rem := m / d, m % d;
    assert Abs(m) == m;
    assert m == q * d + rem;
    assert (q + 1) * d == q * d + d;
    if q < 0 { MultiplesOrder(q, 0, d); }
  }

  lemma MultiplesOrder(a: int, b: int, d: int)
    requires d > 0 && a < b
    ensures a * d + d <= b * d
  {
    var k := b - a - 1;
    assert k * d >= 0;
    assert (a + 1 + k) * d == a * d + d + k * d;
  }

  lemma NearestUnique(n: int, d: int, q: int)
    requires d > 0 && IsNearest(n, d, q)
    ensures Nearest(n, d) == q
  {
    NearestIsNearest(n, d);
    var r := Nearest(n, d);
    if r < q { MultiplesOrder(r, q, d); }
    if q < r { MultiplesOrder(q, r, d); }
  }

  lemma NearestMonotone(m: int, n: int, d: int)
    requires d > 0 && m <= n
    ensures Nearest(m, d) <= Nearest(n, d)
  {
    NearestIsNearest(m, d);
    NearestIsNearest(n, d);
    if Nearest(n, d) < Nearest(m, d) {
      MultiplesOrder(Nearest(n, d), Nearest(m, d), d);
    }
  }

  /** An exact multiple is not changed by rounding. */
  lemma NearestExact(q: int, d: int)
    requires d > 0
    ensures Nearest(q * d, d) == q
  {
    if q >= 0 { assert q * d >= 0; } else { assert q * d <= 0; }
    if q < 0 { assert q * d < 0; }
    NearestUnique(q * d, d, q);
  }

  lemma ScaleLess(a: int, b: int, c: int)
    requires c > 0
    ensures a < b ==> a * c < b * c
    ensures a <= b ==> a * c <= b * c
  {
    if a < b { MultiplesOrder(a, b, c); }
  }

  lemma ProductAssociates(a: int, b: int, c: int)
    ensures a * (b * c) == (a * b) * c
  {
  }

  lemma BoundsScale(n: int, x: int, d: int, c: int)
    requires c > 0
    ensures 2 * x - d <= 2 * n ==> 2 * (x * c) - d * c <= 2 * (n * c)
    ensures 2 * x - d < 2 * n ==> 2 * (x * c) - d * c < 2 * (n * c)
    ensures 2 * n < 2 * x + d ==> 2 * (n * c) < 2 * (x * c) + d * c
    ensures 2 * n <= 2 * x + d ==> 2 * (n * c) <= 2 * (x * c) + d * c
  {
    ScaleLess(2 * x - d, 2 * n, c);
    ScaleLess(2 * n, 2 * x + d, c);
    assert (2 * x - d) * c == 2 * (x * c) - d * c;
    assert (2 * x + d) * c == 2 * (x * c) + d * c;
    assert (2 * n) * c == 2 * (n * c);
  }

  /** Scaling numerator and denominator alike changes nothing. */
  lemma NearestScale(n: int, d: int, c: int)
    requires d > 0 && c > 0
    ensures d * c > 0 && Nearest(n * c, d * c) == Nearest(n, d)
  {
    ScaleLess(0, d, c);
    ScaleLess(n, 0, c);
    ScaleLess(0, n, c);
    var q := Nearest(n, d);
    NearestIsNearest(n, d);
    ProductAssociates(q, d, c);
    BoundsScale(n, q * d, d, c);
    var nc, dc := n * c, d * c;
    assert IsNearest(nc, dc, q);
    NearestUnique(nc, dc, q);
  }

  /** The round trip behind the required price: stretching f by v / r and shrinking it back by
      r / v returns f through both roundings, whenever the stretch does not shrink (0 < r <= v). */
  lemma StretchAndShrink(f: int, v: int, r: int)
    requires f >= 0 && 0 < r <= v
    ensures Nearest(Nearest(f * v, r) * r, v) == f
  {
    var g := Nearest(f * v, r);
    assert f * v >= 0;
    NearestIsNearest(f * v, r);
    if r == v {
      NearestExact(f, v);
      assert g == f;
      NearestExact(g, v);
    } else {
      assert g * r >= 0;
      assert -r <= 2 * (g * r) - 2 * (f * v) <= r;
      NearestUnique(g * r, v, f);
    }
  }
}
