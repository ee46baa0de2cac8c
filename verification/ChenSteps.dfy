/**
 * What the steps of Chen's EWSA and SA estimators do, in terms of the counts of the window: where the
 * estimates go and how far, and what becomes of densities and widths.
 */
module ChenSteps {
  import opened Reals
  import opened Quantiles
  import opened Estimators
  import opened ChenDensity

  // ---------------------------------------------------------------- pieces of a step

  /** A step of weight w covers w/f times the share of samples by which the count misses its target. */
  lemma StepIs(s: real, w: real, f: real, p: real, cnt: nat, M: nat)
    requires f > 0.0 && M > 0
    ensures f * (M as real * (Step(s, w, f, p, cnt, M) - s)) == w * (p * M as real - cnt as real)
  {
    var g, q, m := w / f, cnt as real / M as real, M as real;
    assert g * f == w && q * m == cnt as real;
    StepProduct(g, f, p, q, m, w, cnt as real);
  }

  lemma StepProduct(g: real, f: real, p: real, q: real, m: real, w: real, cnt: real)
    requires g * f == w && q * m == cnt
    ensures f * (m * (g * (p - q))) == w * (p * m - cnt)
  {
    var d := p - q;
    assert m * d == p * m - cnt;
    assert m * (g * d) == g * (m * d);
    Reassociate(f, g, m * d);
  }

  lemma Reassociate(f: real, g: real, x: real)
    ensures f * (g * x) == (g * f) * x
  {
  }

  /** A density is that of cnt samples out of M in a neighbourhood of width 2c. */
  lemma DensityIs(c: real, M: nat, cnt: nat)
    requires c > 0.0 && M > 0
    ensures Density(c, M, cnt) * (2.0 * c * M as real) == cnt as real
  {
    DensityRange(c, M, cnt);
  }

  lemma WidthIs(sum: real, iqr: real, M: nat)
    requires M > 0
    ensures Width(sum, iqr, M) * M as real == sum * Max(iqr, 0.01)
  {
    var x, m := Max(iqr, 0.01), M as real;
    var q := x / m;
    assert q * m == x;
    Reassociate(sum, m, q);
    assert Width(sum, iqr, M) == sum * q;
    assert (sum * q) * m == sum * (q * m);
  }

  /** Adjoining sums of inverse roots add up. */
  lemma {:induction false} InverseRootsAdd(sqrt: real -> real, from: nat, mid: nat, to: nat)
    requires RootLike(sqrt) && from <= mid <= to
    ensures InverseRoots(sqrt, from, to) == InverseRoots(sqrt, from, mid) + InverseRoots(sqrt, mid, to)
    ensures from + 1 == to ==> InverseRoots(sqrt, from, to) == 1.0 / sqrt(to as real)
  {
    if mid < to {
      InverseRootsAdd(sqrt, from, mid, to - 1);
    }
  }

  // ---------------------------------------------------------------- EWSA

  /** x' is above or below x as fewer or more than a share p of the samples are at or below x. */
  ghost predicate Follows(win: seq<real>, p: real, x: real, x': real) {
    && (x' > x <==> (CountLe(win, x) as real) < p * |win| as real)
    && (x' < x <==> CountLe(win, x) as real > p * |win| as real)
  }

  lemma StepFollows(x: real, w: real, f: real, p: real, win: seq<real>)
    requires 0.0 < w && f > 0.0 && |win| > 0
    ensures Follows(win, p, x, Step(x, w, f, p, CountLe(win, x), |win|))
  {
    StepDirection(x, w, f, p, CountLe(win, x), |win|);
  }

  /** The estimate follows the wanted share of the window, and its quartiles follow theirs. */
  lemma EwsaDirection(sqrt: real -> real, prob: real, w: real, e: Ewsa, win: seq<real>)
    requires RootLike(sqrt) && 0.0 < w < 1.0 && Positive(e) && |win| > 0
    ensures var e' := EwsaNext(sqrt, prob, w, e, win);
            && Follows(win, prob, e.sn, e'.sn)
            && Follows(win, 0.25, e.sn25, e'.sn25)
            && Follows(win, 0.75, e.sn75, e'.sn75)
  {
    hide Step, Follows;
    StepFollows(e.sn, w, e.fn, prob, win);
    StepFollows(e.sn25, w, e.fn25, 0.25, win);
    StepFollows(e.sn75, w, e.fn75, 0.75, win);
  }

  /** How far x' is from x: the larger the density f, the shorter the step. */
  ghost predicate Covers(win: seq<real>, w: real, f: real, p: real, x: real, x': real) {
    f * (|win| as real * (x' - x)) == w * (p * |win| as real - CountLe(win, x) as real)
  }

  lemma StepCovers(x: real, w: real, f: real, p: real, win: seq<real>)
    requires f > 0.0 && |win| > 0
    ensures Covers(win, w, f, p, x, Step(x, w, f, p, CountLe(win, x), |win|))
  {
    StepIs(x, w, f, p, CountLe(win, x), |win|);
  }

  lemma EwsaDistance(sqrt: real -> real, prob: real, w: real, e: Ewsa, win: seq<real>)
    requires RootLike(sqrt) && 0.0 <= w < 1.0 && Positive(e) && |win| > 0
    ensures var e' := EwsaNext(sqrt, prob, w, e, win);
            && Covers(win, w, e.fn, prob, e.sn, e'.sn)
            && Covers(win, w, e.fn25, 0.25, e.sn25, e'.sn25)
            && Covers(win, w, e.fn75, 0.75, e.sn75, e'.sn75)
  {
    hide Step, Covers;
    StepCovers(e.sn, w, e.fn, prob, win);
    StepCovers(e.sn25, w, e.fn25, 0.25, win);
    StepCovers(e.sn75, w, e.fn75, 0.75, win);
  }

  /** f' is a share w of the way from f to the density of the samples within c of x. */
  ghost predicate Averages(win: seq<real>, w: real, c: real, x: real, f: real, f': real) {
    (f' - (1.0 - w) * f) * (2.0 * c * |win| as real) == w * CountNear(win, x, c) as real
  }

  lemma AveragesIs(win: seq<real>, w: real, c: real, x: real, f: real)
    requires c > 0.0 && |win| > 0
    ensures Averages(win, w, c, x, f, Blend(w, Density(c, |win|, CountNear(win, x, c)), f))
  {
    var d, k := Density(c, |win|, CountNear(win, x, c)), 2.0 * c * |win| as real;
    DensityIs(c, |win|, CountNear(win, x, c));
    assert Blend(w, d, f) - (1.0 - w) * f == w * d;
    assert (w * d) * k == w * (d * k);
  }

  /**
   * The densities are averaged with those of the window around the estimates before the step; the
   * width is that of the quartiles after it.
   */
  lemma EwsaDensities(sqrt: real -> real, prob: real, w: real, e: Ewsa, win: seq<real>)
    requires RootLike(sqrt) && 0.0 <= w < 1.0 && Positive(e) && |win| > 0
    ensures var e' := EwsaNext(sqrt, prob, w, e, win);
            && Averages(win, w, e.cn, e.sn, e.fn, e'.fn)
            && Averages(win, w, e.cn, e.sn25, e.fn25, e'.fn25)
            && Averages(win, w, e.cn, e.sn75, e.fn75, e'.fn75)
            && e'.cn * |win| as real == InverseRoots(sqrt, |win|, 2 * |win|) * Max(e'.sn75 - e'.sn25, 0.01)
  {
    hide Averages, Blend, Density, Width;
    AveragesIs(win, w, e.cn, e.sn, e.fn);
    AveragesIs(win, w, e.cn, e.sn25, e.fn25);
    AveragesIs(win, w, e.cn, e.sn75, e.fn75);
    var e' := EwsaNext(sqrt, prob, w, e, win);
    WidthIs(InverseRoots(sqrt, |win|, 2 * |win|), e'.sn75 - e'.sn25, |win|);
  }

  /** The samples that the first density at x is made of: one at least, and one if the buffer is the window. */
  ghost predicate FirstDensity(data: seq<real>, buf: seq<real>, c: real, x: real, f: real) {
    f * (2.0 * c * |Window(data, buf)| as real)
    == if |data| > |buf| && CountNear(data, x, c) > 1 then CountNear(data, x, c) as real else 1.0
  }

  lemma FirstDensityIs(data: seq<real>, buf: seq<real>, c: real, x: real)
    requires c > 0.0 && |data| > 0
    ensures FirstDensity(data, buf, c, x, Density(c, |Window(data, buf)|, InitialCount(data, buf, x, c)))
  {
    DensityIs(c, |Window(data, buf)|, InitialCount(data, buf, x, c));
  }

  lemma EwsaStartIs(sqrt: real -> real, data: seq<real>, buf: seq<real>, q25: real, q75: real, qp: real)
    requires RootLike(sqrt) && |data| > 0
    ensures var e, M := EwsaStart(sqrt, data, buf, q25, q75, qp), |Window(data, buf)|;
            && M > 0 && e.sn == qp && e.sn25 == q25 && e.sn75 == q75
            && FirstDensity(data, buf, e.cn, qp, e.fn)
            && FirstDensity(data, buf, e.cn, q25, e.fn25)
            && FirstDensity(data, buf, e.cn, q75, e.fn75)
            && e.cn * M as real == (1.0 + InverseRoots(sqrt, 1, M)) * Max(q75 - q25, 0.01)
  {
    hide FirstDensity, Density, Width;
    var e, M := EwsaStart(sqrt, data, buf, q25, q75, qp), |Window(data, buf)|;
    WidthIs(1.0 + InverseRoots(sqrt, 1, M), q75 - q25, M);
    FirstDensityIs(data, buf, e.cn, qp);
    FirstDensityIs(data, buf, e.cn, q25);
    FirstDensityIs(data, buf, e.cn, q75);
  }

  // ---------------------------------------------------------------- SA

  /** It starts as EWSA does, with the first density as the running one. */
  lemma SaStartIs(sqrt: real -> real, data: seq<real>, buf: seq<real>, q25: real, q75: real, qp: real, c: real)
    requires RootLike(sqrt) && |data| > 0
    requires c * |Window(data, buf)| as real == (1.0 + InverseRoots(sqrt, 1, |Window(data, buf)|)) * Max(q75 - q25, 0.01)
    ensures var s := SaStart(sqrt, data, buf, q25, q75, qp, 0);
            s.sn == qp && s.n == 0 && s.fn == s.f0 && FirstDensity(data, buf, c, qp, s.fn)
  {
    hide FirstDensity, InverseRoots, EwsaStart, Window, RootLike;
    var e, m := EwsaStart(sqrt, data, buf, q25, q75, qp), |Window(data, buf)| as real;
    EwsaStartIs(sqrt, data, buf, q25, q75, qp);
    hide SaStart;
    SaStartsAsEwsa(sqrt, data, buf, q25, q75, qp);
    SameFactor(m, c, e.cn);
  }

  lemma SaStartsAsEwsa(sqrt: real -> real, data: seq<real>, buf: seq<real>, q25: real, q75: real, qp: real)
    requires RootLike(sqrt) && |data| > 0
    ensures var f := EwsaStart(sqrt, data, buf, q25, q75, qp).fn;
            SaStart(sqrt, data, buf, q25, q75, qp, 0) == Sa(qp, f, f, 0)
  {
    hide EwsaStart;
  }

  lemma SameFactor(m: real, x: real, y: real)
    requires m != 0.0 && x * m == y * m
    ensures x == y
  {
    assert x == (x * m) / m && y == (y * m) / m;
  }

  /** The divisor is the larger of the running density and the n-th part, by root, of the first. */
  lemma DivisorIs(sqrt: real -> real, s: Sa)
    requires RootLike(sqrt) && SaSound(s)
    ensures s.n == 0 ==> Divisor(sqrt, s) == s.f0
    ensures s.n > 0 ==>
              var en, r := Divisor(sqrt, s), sqrt(s.n as real);
              && s.fn <= en && s.f0 <= en * r && (en == s.fn || en * r == s.f0)
  {
    if s.n > 0 {
      var en, r := Divisor(sqrt, s), sqrt(s.n as real);
      var q := s.f0 / r;
      assert q * r == s.f0;
      MulLe(r, q, en, s.f0, en * r);
    }
  }

  /** An update follows the wanted share of the window too, by steps that shorten with their number. */
  lemma SaStep(sqrt: real -> real, prob: real, s: Sa, win: seq<real>)
    requires RootLike(sqrt) && SaSound(s) && |win| > 0
    ensures var s' := SaNext(sqrt, prob, s, win);
            && Follows(win, prob, s.sn, s'.sn)
            && Covers(win, 1.0 / (s.n + 1) as real, Divisor(sqrt, s), prob, s.sn, s'.sn)
  {
    var wn, en := 1.0 / (s.n + 1) as real, Divisor(sqrt, s);
    WeightRange(s.n + 1);
    hide Step, Follows, Covers;
    StepFollows(s.sn, wn, en, prob, win);
    StepCovers(s.sn, wn, en, prob, win);
  }

  /** Its density is averaged with that within sqrt(1/n) of the estimate before the step. */
  lemma SaDensity(sqrt: real -> real, prob: real, s: Sa, win: seq<real>)
    requires RootLike(sqrt) && SaSound(s) && |win| > 0
    ensures var s', wn := SaNext(sqrt, prob, s, win), 1.0 / (s.n + 1) as real;
            Averages(win, wn, sqrt(wn), s.sn, s.fn, s'.fn)
  {
    var wn := 1.0 / (s.n + 1) as real;
    WeightRange(s.n + 1);
    AveragesIs(win, wn, sqrt(wn), s.sn, s.fn);
  }
}
