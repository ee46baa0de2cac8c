/**
 * Chen's EWSA and SA estimators: stochastic approximation of a quantile with an estimate of the
 * density around it.  Every divisor is positive whenever it is used, over every run.
 *
 * The square root is a parameter of which only positivity is assumed.  The quartiles and the
 * quantile that start an estimate, and what the optional clamp makes of an estimate, are parameters
 * too, of which nothing is assumed.
 */
module ChenDensity {
  import opened Reals
  import opened Quantiles
  import opened Estimators

  /** A square root is positive on positive arguments. */
  ghost predicate RootLike(sqrt: real -> real) {
    forall x: real :: x > 0.0 ==> sqrt(x) > 0.0
  }

  /** The sum of 1/sqrt(i) for i in (from, to]. */
  function InverseRoots(sqrt: real -> real, from: nat, to: nat): real
    requires RootLike(sqrt) && from <= to
  {
    if from == to then 0.0 else InverseRoots(sqrt, from, to - 1) + 1.0 / sqrt(to as real)
  }

  lemma {:induction false} InverseRootsPositive(sqrt: real -> real, from: nat, to: nat)
    requires RootLike(sqrt) && from <= to
    ensures 0.0 <= InverseRoots(sqrt, from, to)
    ensures from < to ==> 0.0 < InverseRoots(sqrt, from, to)
  {
    if from < to {
      InverseRootsPositive(sqrt, from, to - 1);
      QuotientPositive(1.0, sqrt(to as real));
    }
  }

  lemma PositiveProduct(x: real, y: real)
    requires x > 0.0 && y > 0.0
    ensures x * y > 0.0
  {
    MulLt(x, 0.0, y, 0.0, x * y);
  }

  lemma NonNegativeQuotient(x: real, y: real)
    requires x >= 0.0 && y > 0.0
    ensures x / y >= 0.0
  {
    if x > 0.0 {
      QuotientPositive(x, y);
    }
  }

  // ---------------------------------------------------------------- pieces of a step

  /** The width of the neighbourhood, from the interquartile range; a vanishing one counts as 0.01. */
  function Width(sum: real, iqr: real, M: nat): real
    requires M > 0
  {
    sum * (Max(iqr, 0.01) / M as real)
  }

  /** The density of cnt out of M samples in a neighbourhood of half-width c. */
  function Density(c: real, M: nat, cnt: nat): real
    requires c > 0.0 && M > 0
  {
    cnt as real / (2.0 * c * M as real)
  }

  /** A step of size w / f towards the probability p, when cnt out of M samples are at or below. */
  function Step(s: real, w: real, f: real, p: real, cnt: nat, M: nat): real
    requires f > 0.0 && M > 0
  {
    s + w / f * (p - cnt as real / M as real)
  }

  lemma WidthPositive(sum: real, iqr: real, M: nat)
    requires sum > 0.0 && M > 0
    ensures Width(sum, iqr, M) > 0.0
  {
    QuotientPositive(Max(iqr, 0.01), M as real);
    PositiveProduct(sum, Max(iqr, 0.01) / M as real);
  }

  lemma DensityRange(c: real, M: nat, cnt: nat)
    requires c > 0.0 && M > 0
    ensures 2.0 * c * M as real > 0.0
    ensures Density(c, M, cnt) >= 0.0
    ensures cnt > 0 ==> Density(c, M, cnt) > 0.0
  {
    PositiveProduct(2.0 * c, M as real);
    if cnt > 0 {
      QuotientPositive(cnt as real, 2.0 * c * M as real);
    } else {
      NonNegativeQuotient(cnt as real, 2.0 * c * M as real);
    }
  }

  /** One step moves the estimate by at most w/f times the larger of p and 1 - p. */
  lemma StepBound(s: real, w: real, f: real, p: real, cnt: nat, M: nat)
    requires 0.0 <= w && f > 0.0 && 0.0 <= p <= 1.0 && M > 0 && cnt <= M
    ensures Abs(Step(s, w, f, p, cnt, M) - s) <= w / f * Max(p, 1.0 - p)
  {
    NonNegativeQuotient(w, f);
    FractionInUnit(cnt as real, M as real);
    var g, d, b := w / f, p - cnt as real / M as real, Max(p, 1.0 - p);
    var gd, gb := g * d, g * b;
    MulLe(g, d, b, gd, gb);
    MulLe(g, -b, d, g * (-b), gd);
    assert g * (-b) == -gb;
  }

  /** A step goes up when fewer than p*M samples are at or below the estimate, and down when more are. */
  lemma StepDirection(s: real, w: real, f: real, p: real, cnt: nat, M: nat)
    requires 0.0 < w && f > 0.0 && M > 0
    ensures Step(s, w, f, p, cnt, M) > s <==> (cnt as real) < p * M as real
    ensures Step(s, w, f, p, cnt, M) < s <==> cnt as real > p * M as real
  {
    QuotientPositive(w, f);
    var g, q, m := w / f, cnt as real / M as real, M as real;
    assert q * m == cnt as real;
    if q < p {
      MulLt(m, q, p, q * m, p * m);
      MulLt(g, 0.0, p - q, 0.0, g * (p - q));
    } else if p < q {
      MulLt(m, p, q, p * m, q * m);
      MulLt(g, p - q, 0.0, g * (p - q), 0.0);
    }
  }

  /** Averaging a positive density with a density keeps it positive, as long as w < 1. */
  lemma BlendPositive(w: real, x: real, y: real)
    requires 0.0 <= w < 1.0 && x >= 0.0 && y > 0.0
    ensures Blend(w, x, y) > 0.0
  {
    MulNonNegative(w, x, w * x);
    PositiveProduct(1.0 - w, y);
  }

  // ---------------------------------------------------------------- EWSA

  /** The estimate with its two quartiles, their densities, and the width. */
  datatype Ewsa = Ewsa(sn: real, sn25: real, sn75: real, fn: real, fn25: real, fn75: real, cn: real)

  ghost predicate Positive(e: Ewsa) {
    e.fn > 0.0 && e.fn25 > 0.0 && e.fn75 > 0.0 && e.cn > 0.0
  }

  /** How many samples the first density is made of: none are counted when the buffer is the window. */
  function InitialCount(data: seq<real>, buf: seq<real>, x: real, c: real): nat {
    var cnt := if |data| > |buf| then CountNear(data, x, c) else 0;
    if cnt > 1 then cnt else 1
  }

  function EwsaStart(sqrt: real -> real, data: seq<real>, buf: seq<real>, q25: real, q75: real, qp: real): (e: Ewsa)
    requires RootLike(sqrt) && |data| > 0
    ensures Positive(e) && e.sn == qp
  {
    var M := |Window(data, buf)|;
    InverseRootsPositive(sqrt, 1, M);
    WidthPositive(1.0 + InverseRoots(sqrt, 1, M), q75 - q25, M);
    var cn := Width(1.0 + InverseRoots(sqrt, 1, M), q75 - q25, M);
    DensityRange(cn, M, InitialCount(data, buf, qp, cn));
    DensityRange(cn, M, InitialCount(data, buf, q25, cn));
    DensityRange(cn, M, InitialCount(data, buf, q75, cn));
    Ewsa(qp, q25, q75,
         Density(cn, M, InitialCount(data, buf, qp, cn)),
         Density(cn, M, InitialCount(data, buf, q25, cn)),
         Density(cn, M, InitialCount(data, buf, q75, cn)), cn)
  }

  function EwsaNext(sqrt: real -> real, prob: real, w: real, e: Ewsa, win: seq<real>): (e': Ewsa)
    requires RootLike(sqrt) && 0.0 <= w < 1.0 && Positive(e) && |win| > 0
    ensures Positive(e')
    ensures 0.0 <= prob <= 1.0 ==> Abs(e'.sn - e.sn) <= w / e.fn * Max(prob, 1.0 - prob)
  {
    var M := |win|;
    CountBounds(win, e.sn);
    assert 0.0 <= prob <= 1.0 ==> Abs(Step(e.sn, w, e.fn, prob, CountLe(win, e.sn), M) - e.sn) <= w / e.fn * Max(prob, 1.0 - prob) by {
      if 0.0 <= prob <= 1.0 {
        StepBound(e.sn, w, e.fn, prob, CountLe(win, e.sn), M);
      }
    }
    DensityRange(e.cn, M, CountNear(win, e.sn, e.cn));
    DensityRange(e.cn, M, CountNear(win, e.sn25, e.cn));
    DensityRange(e.cn, M, CountNear(win, e.sn75, e.cn));
    BlendPositive(w, Density(e.cn, M, CountNear(win, e.sn, e.cn)), e.fn);
    BlendPositive(w, Density(e.cn, M, CountNear(win, e.sn25, e.cn)), e.fn25);
    BlendPositive(w, Density(e.cn, M, CountNear(win, e.sn75, e.cn)), e.fn75);
    var sn25 := Step(e.sn25, w, e.fn25, 0.25, CountLe(win, e.sn25), M);
    var sn75 := Step(e.sn75, w, e.fn75, 0.75, CountLe(win, e.sn75), M);
    InverseRootsPositive(sqrt, M, 2 * M);
    WidthPositive(InverseRoots(sqrt, M, 2 * M), sn75 - sn25, M);
    Ewsa(Step(e.sn, w, e.fn, prob, CountLe(win, e.sn), M), sn25, sn75,
         Blend(w, Density(e.cn, M, CountNear(win, e.sn, e.cn)), e.fn),
         Blend(w, Density(e.cn, M, CountNear(win, e.sn25, e.cn)), e.fn25),
         Blend(w, Density(e.cn, M, CountNear(win, e.sn75, e.cn)), e.fn75),
         Width(InverseRoots(sqrt, M, 2 * M), sn75 - sn25, M))
  }

  /** A step's window, and what the clamp makes of the estimate after it. */
  datatype Round = Round(window: seq<real>, clamped: real -> real)

  ghost predicate Windowed(rounds: seq<Round>) {
    forall i :: 0 <= i < |rounds| ==> |rounds[i].window| > 0
  }

  /** Any number of steps: densities and width stay positive. */
  function EwsaRun(sqrt: real -> real, prob: real, w: real, e: Ewsa, rounds: seq<Round>): (e': Ewsa)
    requires RootLike(sqrt) && 0.0 <= w < 1.0 && Positive(e) && Windowed(rounds)
    ensures Positive(e')
  {
    if |rounds| == 0 then e
    else
      var last := rounds[|rounds| - 1];
      var next := EwsaNext(sqrt, prob, w, EwsaRun(sqrt, prob, w, e, rounds[..|rounds| - 1]), last.window);
      next.(sn := last.clamped(next.sn))
  }

  datatype EwsaState = Unset | Set(e: Ewsa)

  class ChenEwsaEstimator {
    const sqrt: real -> real
    const prob: real
    const w: real
    const capacity: nat
    var data: seq<real>
    var buf: seq<real>
    var state: EwsaState  // not a number until the first estimate
    var init: bool

    ghost predicate Valid()
      reads this
    {
      && RootLike(sqrt) && 0.0 <= prob <= 1.0 && 0.0 <= w < 1.0
      && |buf| <= capacity
      && (state.Set? ==> Positive(state.e))
      && (!init ==> state.Set?)
    }

    constructor (sqrt: real -> real, prob: real, w: real, capacity: nat)
      requires RootLike(sqrt) && 0.0 <= prob <= 1.0 && 0.0 <= w < 1.0
      ensures Valid() && state == Unset && init && data == buf == []
    {
      this.sqrt, this.prob, this.w, this.capacity := sqrt, prob, w, capacity;
      data, buf, state, init := [], [], Unset, true;
    }

    method Collect(batch: seq<real>)
      requires Valid()
      modifies this`data, this`buf
      ensures Valid() && data == old(data) + batch && buf == Last(old(buf) + batch, capacity)
    {
      hide Last, Push, Positive, SaSound;
      LastOfFew(buf, capacity);
      assert buf + batch[..0] == buf;
      for i := 0 to |batch|
        invariant Valid() && data == old(data) + batch[..i] && buf == Last(old(buf) + batch[..i], capacity)
      {
        PushKeepsLast(old(buf) + batch[..i], capacity, batch[i]);
        PushKeepsLast(old(buf) + batch[..i] + [batch[i]], capacity, batch[i]);
        assert old(buf) + batch[..i + 1] == old(buf) + batch[..i] + [batch[i]];
        data := data + [batch[i]];
        buf := Push(buf, capacity, batch[i]);
      }
      assert batch[..|batch|] == batch;
    }

    /** The counting loop of a step: samples at or below x, and samples within c of it. */
    method CountWindow(win: seq<real>, x: real, c: real) returns (le: nat, near: nat)
      ensures le == CountLe(win, x) && near == CountNear(win, x, c)
    {
      le, near := 0, 0;
      for i := 0 to |win|
        invariant le == CountLe(win[..i], x) && near == CountNear(win[..i], x, c)
      {
        assert win[..i + 1][..i] == win[..i];
        if Abs(win[i] - x) <= c {
          near := near + 1;
        }
        if win[i] <= x {
          le := le + 1;
        }
      }
      assert win[..|win|] == win;
    }

    /**
     * Start, or take one step; q25, q75 and qp are the window's sample quantiles.  `clamped` is the
     * optional clamp to the observed range: the identity when it is off.
     */
    method Estimate(q25: real, q75: real, qp: real, clamped: real -> real)
      requires Valid()
      modifies this`data, this`state, this`init
      ensures Valid() && data == []
      ensures old(data) == [] ==> state == old(state) && init == old(init)
      ensures old(data) != [] ==>
                && state.Set? && (init <==> old(init) && |buf| != capacity)
                && var e := if old(init) then EwsaStart(sqrt, old(data), buf, q25, q75, qp)
                            else EwsaNext(sqrt, prob, w, old(state.e), Window(old(data), buf));
                   state.e == e.(sn := clamped(e.sn))
    {
      if |data| > 0 {
        if init {
          state := Set(EwsaStart(sqrt, data, buf, q25, q75, qp));
          if |buf| == capacity {
            init := false;
          }
        } else {
          var win, e := Window(data, buf), state.e;
          var le, near := CountWindow(win, e.sn, e.cn);
          var le25, near25 := CountWindow(win, e.sn25, e.cn);
          var le75, near75 := CountWindow(win, e.sn75, e.cn);
          var M := |win|;
          var next := EwsaNext(sqrt, prob, w, e, win);
          DensityRange(e.cn, M, near);
          var sn25, sn75 := Step(e.sn25, w, e.fn25, 0.25, le25, M), Step(e.sn75, w, e.fn75, 0.75, le75, M);
          state := Set(Ewsa(Step(e.sn, w, e.fn, prob, le, M), sn25, sn75,
                            Blend(w, Density(e.cn, M, near), e.fn),
                            Blend(w, Density(e.cn, M, near25), e.fn25),
                            Blend(w, Density(e.cn, M, near75), e.fn75),
                            Width(InverseRoots(sqrt, M, 2 * M), sn75 - sn25, M)));
          assert state.e == next;
        }
        state := Set(state.e.(sn := clamped(state.e.sn)));
        data := [];
      }
    }

    method Reset()
      requires Valid()
      modifies this
      ensures Valid() && state == Unset && init && data == buf == []
    {
      init := true;
      data, buf, state := [], [], Unset;
    }
  }

  // ---------------------------------------------------------------- SA

  datatype Sa = Sa(sn: real, fn: real, f0: real, n: nat)

  /** The first density is positive for good; the running one may vanish but not become negative. */
  ghost predicate SaSound(s: Sa) {
    s.f0 > 0.0 && s.fn >= 0.0
  }

  function SaStart(sqrt: real -> real, data: seq<real>, buf: seq<real>, q25: real, q75: real, qp: real, n: nat): (s: Sa)
    requires RootLike(sqrt) && |data| > 0
    ensures SaSound(s) && s.sn == qp && s.n == n
  {
    var e := EwsaStart(sqrt, data, buf, q25, q75, qp);
    Sa(qp, e.fn, e.fn, n)
  }

  /** The divisor of the next step. */
  function Divisor(sqrt: real -> real, s: Sa): (en: real)
    requires RootLike(sqrt) && SaSound(s)
    ensures en > 0.0
  {
    if s.n > 0 then
      QuotientPositive(s.f0, sqrt(s.n as real));
      Max(s.fn, s.f0 / sqrt(s.n as real))
    else s.f0
  }

  function SaNext(sqrt: real -> real, prob: real, s: Sa, win: seq<real>): (s': Sa)
    requires RootLike(sqrt) && SaSound(s) && |win| > 0
    ensures SaSound(s') && s'.n == s.n + 1 && s'.f0 == s.f0
    ensures 0.0 <= prob <= 1.0 ==>
              Abs(s'.sn - s.sn) <= (1.0 / (s.n + 1) as real) / Divisor(sqrt, s) * Max(prob, 1.0 - prob)
  {
    var n, M := s.n + 1, |win|;
    var wn := 1.0 / n as real;
    WeightRange(n);
    var cn := sqrt(wn);
    var en := Divisor(sqrt, s);
    CountBounds(win, s.sn);
    assert 0.0 <= prob <= 1.0 ==> Abs(Step(s.sn, wn, en, prob, CountLe(win, s.sn), M) - s.sn) <= wn / en * Max(prob, 1.0 - prob) by {
      if 0.0 <= prob <= 1.0 {
        StepBound(s.sn, wn, en, prob, CountLe(win, s.sn), M);
      }
    }
    DensityRange(cn, M, CountNear(win, s.sn, cn));
    BlendNonNegative(wn, Density(cn, M, CountNear(win, s.sn, cn)), s.fn);
    Sa(Step(s.sn, wn, en, prob, CountLe(win, s.sn), M),
       Blend(wn, Density(cn, M, CountNear(win, s.sn, cn)), s.fn), s.f0, n)
  }

  lemma WeightRange(n: nat)
    requires n > 0
    ensures 0.0 < 1.0 / n as real <= 1.0
  {
    QuotientPositive(1.0, n as real);
    FractionInUnit(1.0, n as real);
  }

  lemma BlendNonNegative(w: real, x: real, y: real)
    requires 0.0 <= w <= 1.0 && x >= 0.0 && y >= 0.0
    ensures Blend(w, x, y) >= 0.0
  {
    MulNonNegative(w, x, w * x);
    MulNonNegative(1.0 - w, y, (1.0 - w) * y);
  }

  datatype SaState = NotSet | IsSet(s: Sa)

  class ChenSaEstimator {
    const sqrt: real -> real
    const prob: real
    const capacity: nat
    var data: seq<real>
    var buf: seq<real>
    var state: SaState  // not a number until the first estimate
    var init: bool

    ghost predicate Valid()
      reads this
    {
      && RootLike(sqrt) && 0.0 <= prob <= 1.0 && |buf| <= capacity
      && (state.IsSet? ==> SaSound(state.s))
      && (!init ==> state.IsSet?)
    }

    constructor (sqrt: real -> real, prob: real, capacity: nat)
      requires RootLike(sqrt) && 0.0 <= prob <= 1.0
      ensures Valid() && state == NotSet && init && data == buf == []
    {
      this.sqrt, this.prob, this.capacity := sqrt, prob, capacity;
      data, buf, state, init := [], [], NotSet, true;
    }

    method Collect(batch: seq<real>)
      requires Valid()
      modifies this`data, this`buf
      ensures Valid() && data == old(data) + batch && buf == Last(old(buf) + batch, capacity)
    {
      hide Last, Push, Positive, SaSound;
      LastOfFew(buf, capacity);
      assert buf + batch[..0] == buf;
      for i := 0 to |batch|
        invariant Valid() && data == old(data) + batch[..i] && buf == Last(old(buf) + batch[..i], capacity)
      {
        PushKeepsLast(old(buf) + batch[..i], capacity, batch[i]);
        PushKeepsLast(old(buf) + batch[..i] + [batch[i]], capacity, batch[i]);
        assert old(buf) + batch[..i + 1] == old(buf) + batch[..i] + [batch[i]];
        data := data + [batch[i]];
        buf := Push(buf, capacity, batch[i]);
      }
      assert batch[..|batch|] == batch;
    }

    /**
     * Start, or take one step; q25, q75 and qp are the window's sample quantiles.  `clamped` is the
     * optional clamp to the observed range: the identity when it is off.
     */
    method Estimate(q25: real, q75: real, qp: real, clamped: real -> real)
      requires Valid()
      modifies this`data, this`state, this`init
      ensures Valid() && data == []
      ensures old(data) == [] ==> state == old(state) && init == old(init)
      ensures old(data) != [] ==>
                && state.IsSet? && (init <==> old(init) && |buf| != capacity)
                && var s := if old(init) then SaStart(sqrt, old(data), buf, q25, q75, qp, 0)
                            else SaNext(sqrt, prob, old(state.s), Window(old(data), buf));
                   state.s == s.(sn := clamped(s.sn))
    {
      if |data| > 0 {
        if init {
          // No update has been counted yet: updates begin once the buffer has filled.
          state := IsSet(SaStart(sqrt, data, buf, q25, q75, qp, 0));
          if |buf| == capacity {
            init := false;
          }
        } else {
          state := IsSet(SaNext(sqrt, prob, state.s, Window(data, buf)));
        }
        state := IsSet(state.s.(sn := clamped(state.s.sn)));
        data := [];
      }
    }

    method Reset()
      requires Valid()
      modifies this
      ensures Valid() && state == NotSet && init && data == buf == []
    {
      init := true;
      data, buf, state := [], [], NotSet;
    }
  }

  /** Any number of updates: the first density is kept, and every divisor on the way is positive. */
  function SaRun(sqrt: real -> real, prob: real, s: Sa, rounds: seq<Round>): (s': Sa)
    requires RootLike(sqrt) && SaSound(s) && Windowed(rounds)
    ensures SaSound(s') && s'.n == s.n + |rounds| && s'.f0 == s.f0
  {
    if |rounds| == 0 then s
    else
      var last := rounds[|rounds| - 1];
      var next := SaNext(sqrt, prob, SaRun(sqrt, prob, s, rounds[..|rounds| - 1]), last.window);
      next.(sn := last.clamped(next.sn))
  }
}
