/** Double precision as far as the driver code needs it: which reals are doubles, and rounding to a
    nearest one (IEEE 754, section 4.3.1). Ties do not matter here, nor do the limits of the exponent. */
module Floats {
  import opened Basics

  const TWO53: int := 0x20_0000_0000_0000

  function Pow2(e: nat): (r: int)
    ensures r >= 1
  {
    if e == 0 then 1 else 2 * Pow2(e - 1)
  }

  /** r is m times 2 to the e, or m divided by it. */
  predicate Represents(r: real, m: int, e: nat) {
    -TWO53 <= m <= TWO53 && (r == (m * Pow2(e)) as real || r * (Pow2(e) as real) == m as real)
  }

  ghost predicate IsDouble(r: real) {
    exists m: int, e: nat :: Represents(r, m, e)
  }

  function Distance(x: real, y: real): real { if x < y then y - x else x - y }

  /** q is a result of rounding x: no double is closer. */
  ghost predicate Nearest(x: real, q: real) {
    IsDouble(q) && forall d :: IsDouble(d) ==> Distance(x, q) <= Distance(x, d)
  }

  /** math.Ceil, as an integer. */
  function Ceil(q: real): int { -((-q).Floor) }

  function CeilDiv(f: int, p: int): int
    requires p > 0
  {
    (f + p - 1) / p
  }

  lemma IntIsDouble(n: int)
    requires -TWO53 <= n <= TWO53
    ensures IsDouble(n as real)
  {
    assert Represents(n as real, n, 0);
  }

  /** Converting an integer that fits is exact. */
  lemma ConversionIsExact(n: int, q: real)
    requires -TWO53 <= n <= TWO53 && Nearest(n as real, q)
    ensures q == n as real
  {
    IntIsDouble(n);
  }

  /** q is what dividing the two integers gives, each converted to a double before. */
  ghost predicate FloatQuotient(a: int, b: int, q: real) {
    exists f, p :: Divides(a, b, f, p, q)
  }

  ghost predicate Divides(a: int, b: int, f: real, p: real, q: real) {
    Nearest(a as real, f) && Nearest(b as real, p) && p != 0.0 && Nearest(f / p, q)
  }

  /** For integers that fit, only the division rounds. */
  lemma OnlyDivisionRounds(a: int, b: int, q: real)
    requires -TWO53 <= a <= TWO53 && 0 < b <= TWO53 && FloatQuotient(a, b, q)
    ensures Nearest((a as real) / (b as real), q)
  {
    var f, p :| Divides(a, b, f, p, q);
    ConversionIsExact(a, f);
    ConversionIsExact(b, p);
  }

  /** Rounding never crosses an integer that fits. */
  lemma RoundingKeepsSide(x: real, q: real, n: int)
    requires Nearest(x, q) && -TWO53 <= n <= TWO53
    ensures x <= n as real ==> q <= n as real
    ensures x >= n as real ==> q >= n as real
  {
    IntIsDouble(n);
  }

  lemma PowerBelow(p: int) returns (j: nat)
    requires p >= 1
    ensures Pow2(j) <= p < 2 * Pow2(j)
  {
    j := 0;
    while 2 * Pow2(j) <= p
      invariant Pow2(j) <= p
      decreases p - Pow2(j)
    {
      j := j + 1;
    }
  }

  lemma RealPowerBelow(p: int) returns (j: nat, t: real)
    requires p >= 1
    ensures t == Pow2(j) as real && 0.0 < t <= p as real < t + t
  {
    j := PowerBelow(p);
    t := Pow2(j) as real;
  }

  // Products of reals, a few at a time.

  lemma ScaledReal(x: real, y: real, a: real)
    requires x <= y && 0.0 <= a
    ensures x * a <= y * a && a * x <= a * y
  {
  }

  lemma ScaledLess(x: real, y: real, a: real)
    requires x < y && 0.0 < a
    ensures x * a < y * a && a * x < a * y
  {
  }

  /** Comparing quotients without dividing. */
  lemma CancelFactor(x: real, y: real, a: real)
    requires 0.0 < a
    ensures x * a <= y * a ==> x <= y
    ensures x * a < y * a ==> x < y
  {
    if x > y { ScaledLess(y, x, a); }
    if x >= y { ScaledReal(y, x, a); }
  }

  lemma Between(x: real, t: real, p: real)
    requires 0.0 < t <= p && 0.0 <= x * p
    ensures 0.0 <= x && 0.0 <= x * t <= x * p
  {
    CancelFactor(0.0, x, p);
    ScaledReal(0.0, t, x);
    ScaledReal(t, p, x);
  }

  lemma DistanceScaled(x: real, d: real, t: real)
    requires t > 0.0
    ensures Distance(x, d) * t == Distance(x * t, d * t)
  {
    CancelFactor(x, d, t);
    CancelFactor(d, x, t);
    assert (d - x) * t == d * t - x * t;
  }

  lemma HalfStep(u: real, t: real, p: real)
    requires 0.0 <= u && 0.0 < p < t + t && u * t <= 0.5
    ensures u * p < 1.0
  {
    if u > 0.0 {
      ScaledLess(p, t + t, u);
      LessThanOne(u * p, u * t);
    }
  }

  lemma LessThanOne(a: real, b: real)
    requires b <= 0.5 && a < b + b
    ensures a < 1.0
  {
  }

  /** A double close to the quotient x, on the grid of a power of two up to p. */
  lemma CloseDouble(f: int, r: real, x: real, j: nat, t: real) returns (d: real)
    requires 0 <= f < TWO53 && t == Pow2(j) as real && 0.0 < t <= r
    requires x * r == f as real
    ensures IsDouble(d) && Distance(x, d) * t <= 0.5
  {
    var m: int;
    m, d := RoundToGrid(f, r, x, t);
    assert Represents(d, m, j);
  }

  lemma RoundToGrid(f: int, r: real, x: real, t: real) returns (m: int, d: real)
    requires 0 <= f && 0.0 < t <= r && x * r == f as real
    ensures 0 <= m <= f && d * t == m as real && Distance(x, d) * t <= 0.5
  {
    Between(x, t, r);
    var xt := x * t;
    m := (xt + 0.5).Floor;
    d := Divided(m as real, t);
    DistanceScaled(x, d, t);
  }

  lemma Divided(m: real, t: real) returns (d: real)
    requires t > 0.0
    ensures d * t == m
  {
    d := m / t;
  }

  lemma CloseEnough(f: int, p: int, x: real, r: real) returns (d: real, t: real)
    requires 0 <= f < TWO53 && p >= 1 && r == p as real && x * r == f as real
    ensures IsDouble(d) && 0.0 < r < t + t && Distance(x, d) * t <= 0.5
  {
    var j;
    j, t := RealPowerBelow(p);
    d := CloseDouble(f, r, x, j, t);
  }

  lemma ErrorBounds(f: int, p: int, x: real, q: real, r: real) returns (u: real, v: real, t: real)
    requires 0 <= f < TWO53 && p >= 1 && r == p as real && x * r == f as real && Nearest(x, q)
    ensures u == Distance(x, q) && 0.0 <= u <= v && 0.0 < r < t + t && v * t <= 0.5
  {
    var d;
    d, t := CloseEnough(f, p, x, r);
    u, v := Distance(x, q), Distance(x, d);
  }

  /** The rounding error of the quotient, times the divisor, is less than one. */
  lemma SmallError(f: int, p: int, x: real, q: real, r: real) returns (u: real)
    requires 0 <= f < TWO53 && p >= 1 && r == p as real && x * r == f as real && Nearest(x, q)
    ensures u == Distance(x, q) && u * r < 1.0
  {
    var v, t;
    u, v, t := ErrorBounds(f, p, x, q, r);
    ErrorOf(u, v, t, r);
  }

  lemma ErrorOf(u: real, v: real, t: real, p: real)
    requires 0.0 <= u <= v && 0.0 < p < t + t && v * t <= 0.5
    ensures u * p < 1.0
  {
    ScaledReal(u, v, t);
    HalfStep(u, t, p);
  }

  lemma CeilBounds(f: int, p: int)
    requires 0 <= f && 1 <= p
    ensures var k := CeilDiv(f, p); (k - 1) * p < f <= k * p && 0 <= k <= f
  {
    var k := CeilDiv(f, p);
    assert f + p - 1 == k * p + (f + p - 1) % p;
    assert (k - 1) * p == k * p - p;
    ProductGrows(k - 1, p);
    ProductGrows(-k, p);
  }

  lemma CountAtMostIff(f: int, p: int, n: int)
    requires 0 <= f && 1 <= p && 0 <= n
    ensures CeilDiv(f, p) <= n <==> f <= n * p
  {
    var k := CeilDiv(f, p);
    CeilBounds(f, p);
    if k <= n { TimesOrder(k, n, p); } else { TimesOrder(n, k - 1, p); }
  }

  lemma ProductGrows(k: int, p: int)
    requires p >= 1
    ensures k >= 0 ==> k * p >= k
    ensures k >= 1 ==> k * p >= p && (-k) * p <= -p
  {
  }

  /** A value whose distance to x, scaled by r, is less than one lies above an integer that is at
      least one below x on that scale. */
  lemma StaysAbove(x: real, q: real, n: real, r: real, u: real)
    requires r > 0.0 && x * r - n * r >= 1.0 && u == Distance(x, q) && u * r < 1.0
    ensures n < q
  {
    var xr, qr, nr, ur := ScaledFacts(x, q, n, r, u);
    FarBelow(xr, qr, nr, ur);
  }

  lemma ScaledFacts(x: real, q: real, n: real, r: real, u: real)
    returns (xr: real, qr: real, nr: real, ur: real)
    requires r > 0.0 && u == Distance(x, q)
    ensures xr == x * r && nr == n * r && ur == u * r
    ensures ur == Distance(xr, qr) && (nr < qr ==> n < q)
  {
    xr, qr, nr, ur := x * r, q * r, n * r, u * r;
    DistanceScaled(x, q, r);
    CancelFactor(n, q, r);
  }

  lemma FarBelow(x: real, q: real, n: real, u: real)
    requires x - n >= 1.0 && u == Distance(x, q) && u < 1.0
    ensures n < q
  {
  }

  lemma AtMost(x: real, k: int, f: int, p: int)
    requires p >= 1 && x * (p as real) == f as real && f <= k * p
    ensures x <= k as real
  {
    assert (k as real) * (p as real) == (k * p) as real;
    CancelFactor(x, k as real, p as real);
  }

  lemma OneBelow(x: real, n: int, f: int, p: int)
    requires p >= 1 && x * (p as real) == f as real && n * p < f
    ensures x * (p as real) - (n as real) * (p as real) >= 1.0
  {
    assert (n as real) * (p as real) == (n * p) as real;
  }

  lemma Quotient(f: int, p: int) returns (x: real)
    requires p >= 1
    ensures x == (f as real) / (p as real) && x * (p as real) == f as real
  {
    x := (f as real) / (p as real);
  }

  /** Dividing two integers in double precision and rounding up gives the integer ceiling, for every
      dividend below 2^53: the rounding error never hides a remainder. */
  lemma FloatCeilIsExact(f: int, p: int, q: real)
    requires 0 <= f < TWO53 && 1 <= p
    requires Nearest((f as real) / (p as real), q)
    ensures Ceil(q) == CeilDiv(f, p)
  {
    var r := p as real;
    var x := Quotient(f, p);
    var k := CeilDiv(f, p);
    CeilBounds(f, p);
    AtMost(x, k, f, p);
    RoundingKeepsSide(x, q, k);
    CeilNotMissed(f, p, x, q, k - 1, r);
  }

  lemma CeilNotMissed(f: int, p: int, x: real, q: real, n: int, r: real)
    requires 0 <= f < TWO53 && p >= 1 && r == p as real && x * r == f as real && Nearest(x, q)
    requires n * p < f
    ensures n as real < q
  {
    var u := SmallError(f, p, x, q, r);
    OneBelow(x, n, f, p);
    StaysAbove(x, q, n as real, r, u);
  }
}
