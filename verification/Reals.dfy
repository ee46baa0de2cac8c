/**
 * Facts about real arithmetic shared by the models.
 *
 * A lemma about products takes the products themselves as arguments (`p == k * x`): callers then
 * reason about the linear terms p and q only.
 */
module Reals {

  /** A floating-point result that may be "not a number". */
  datatype Number = NaN | Value(x: real)

  function Min(x: real, y: real): real {
    if y < x then y else x
  }

  function Max(x: real, y: real): real {
    if x < y then y else x
  }

  function Abs(x: real): real {
    if x < 0.0 then -x else x
  }

  /** std::ceil. */
  function Ceil(x: real): int {
    -((-x).Floor)
  }

  /** The library's clamp: the nearest point of [lo, hi]. */
  function Clamp(x: real, lo: real, hi: real): real {
    if x < lo then lo else if x > hi then hi else x
  }

  /** The exponentially weighted average of a new value x and an old value y. */
  function Blend(w: real, x: real, y: real): real {
    w * x + (1.0 - w) * y
  }

  function Pow(u: real, n: nat): real {
    if n == 0 then 1.0 else u * Pow(u, n - 1)
  }

  // ---------------------------------------------------------------- products

  lemma MulLe(k: real, x: real, y: real, p: real, q: real)
    requires 0.0 <= k && x <= y && p == k * x && q == k * y
    ensures p <= q
  {
  }

  lemma MulLt(k: real, x: real, y: real, p: real, q: real)
    requires 0.0 < k && x < y && p == k * x && q == k * y
    ensures p < q
  {
  }

  lemma MulNonNegative(x: real, y: real, p: real)
    requires 0.0 <= x && 0.0 <= y && p == x * y
    ensures 0.0 <= p
  {
  }

  lemma NonZeroProduct(x: real, y: real, p: real)
    requires x != 0.0 && y != 0.0 && p == x * y
    ensures p != 0.0
  {
  }

  lemma QuotientPositive(b: real, d: real)
    requires b > 0.0 && d > 0.0
    ensures b / d > 0.0
  {
    var q := b / d;
    assert q * d == b;
    if q <= 0.0 {
      MulLe(d, q, 0.0, b, 0.0);
    }
  }

  /** A share f of d, 0 <= f <= 1, is at most d. */
  lemma ShareOf(f: real, d: real, p: real)
    requires 0.0 <= f <= 1.0 && 0.0 <= d && p == f * d
    ensures 0.0 <= p <= d
  {
    var r := (1.0 - f) * d;
    MulNonNegative(f, d, p);
    MulNonNegative(1.0 - f, d, r);
    assert p + r == d;
  }

  lemma BlendInRange(w: real, x: real, y: real, lo: real, hi: real)
    requires 0.0 <= w <= 1.0 && lo <= x <= hi && lo <= y <= hi
    ensures lo <= Blend(w, x, y) <= hi
  {
    var a, b, c := w * lo, w * x, w * hi;
    var d, e, f := (1.0 - w) * lo, (1.0 - w) * y, (1.0 - w) * hi;
    MulLe(w, lo, x, a, b);
    MulLe(w, x, hi, b, c);
    MulLe(1.0 - w, lo, y, d, e);
    MulLe(1.0 - w, y, hi, e, f);
    assert a + d == lo;
    assert c + f == hi;
  }

  /** A point a fraction num/den of the way from x to y, 0 <= num <= den, lies between them. */
  lemma BetweenByFraction(x: real, y: real, num: real, den: real, r: real)
    requires x <= y && 0.0 <= num <= den && 0.0 < den
    requires r == x + (y - x) * num / den
    ensures x <= r <= y
  {
    var f, d := num / den, y - x;
    FractionInUnit(num, den);
    var p := f * d;
    ShareOf(f, d, p);
    ScaledFraction(d, num, den, f, p);
  }

  lemma ScaledFraction(d: real, num: real, den: real, f: real, p: real)
    requires den != 0.0 && f == num / den && p == f * d
    ensures d * num / den == p
  {
    assert f * den == num;
    assert d * num == p * den;
  }

  lemma FractionInUnit(num: real, den: real)
    requires 0.0 <= num <= den && 0.0 < den
    ensures 0.0 <= num / den <= 1.0
  {
    var f := num / den;
    assert f * den == num;
    if f < 0.0 {
      MulLt(den, f, 0.0, f * den, 0.0);
    }
    if 1.0 < f {
      MulLt(den, 1.0, f, den, f * den);
    }
  }

  // ---------------------------------------------------------------- powers

  lemma {:induction false} PowProduct(u: real, v: real, w: real, n: nat)
    requires w == u * v
    ensures Pow(w, n) == Pow(u, n) * Pow(v, n)
  {
    if n > 0 {
      PowProduct(u, v, w, n - 1);
      var p, q := Pow(u, n - 1), Pow(v, n - 1);
      assert (u * v) * (p * q) == (u * p) * (v * q);
    }
  }

  lemma {:induction false} PowNonNegative(u: real, n: nat)
    requires 0.0 <= u
    ensures 0.0 <= Pow(u, n)
  {
    if n > 0 {
      PowNonNegative(u, n - 1);
      MulNonNegative(u, Pow(u, n - 1), Pow(u, n));
    }
  }

  /** Bernoulli's inequality. */
  lemma {:induction false} Bernoulli(x: real, n: nat)
    requires 0.0 <= x
    ensures 1.0 + x * n as real <= Pow(1.0 + x, n)
  {
    if n > 0 {
      Bernoulli(x, n - 1);
      BernoulliStep(x, (n - 1) as real, Pow(1.0 + x, n - 1));
    }
  }

  lemma BernoulliStep(x: real, m: real, pw: real)
    requires 0.0 <= x && 0.0 <= m && 1.0 + x * m <= pw
    ensures 1.0 + x * (m + 1.0) <= (1.0 + x) * pw
  {
    var a, b := (1.0 + x) * (1.0 + x * m), (1.0 + x) * pw;
    MulLe(1.0 + x, 1.0 + x * m, pw, a, b);
    var c, d := x * x, x * x * m;
    MulNonNegative(x, x, c);
    MulNonNegative(c, m, d);
    assert a == 1.0 + x * (m + 1.0) + d;
  }
}
