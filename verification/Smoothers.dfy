/**
 * The exponential smoothers: Brown's single smoother, Holt-Winters' double smoother and
 * Brown's double smoother.
 *
 * The three classes fold a batch of samples into a few mutable fields.  Each is specified by a
 * function on values (`SingleRun`, `HoltRun`, `BrownRun`) that folds the same samples, and the
 * laws of the smoothers are lemmas about these functions.
 */
module Smoothers {
  import opened Reals

  // ---------------------------------------------------------------- single smoothing

  datatype Single = Single(s: real, init: bool)

  const FRESH_SINGLE := Single(0.0, true)

  function SingleStep(alpha: real, st: Single, val: real): Single {
    if st.init then Single(val, false)
    else Single(Blend(alpha, val, st.s), false)
  }

  function SingleRun(alpha: real, st: Single, data: seq<real>): Single {
    if |data| == 0 then st
    else SingleStep(alpha, SingleRun(alpha, st, data[..|data| - 1]), data[|data| - 1])
  }

  lemma SingleRunSnoc(alpha: real, st: Single, data: seq<real>, i: nat)
    requires i < |data|
    ensures SingleRun(alpha, st, data[..i + 1]) == SingleStep(alpha, SingleRun(alpha, st, data[..i]), data[i])
  {
    assert data[..i + 1][..i] == data[..i];
  }

  class BrownSingleSmoother {
    var alpha: real
    var s: real
    var init: bool

    function State(): Single
      reads this
    {
      Single(s, init)
    }

    constructor (alpha: real)
      ensures this.alpha == alpha && State() == FRESH_SINGLE
    {
      this.alpha := alpha;
      s, init := 0.0, true;
    }

    method Smooth(data: seq<real>) returns (level: real)
      modifies this`s, this`init
      ensures State() == SingleRun(alpha, old(State()), data)
      ensures level == s
    {
      for i := 0 to |data|
        invariant State() == SingleRun(alpha, old(State()), data[..i])
      {
        var val := data[i];
        SingleRunSnoc(alpha, old(State()), data, i);
        if init {
          s := val;
          init := false;
        } else {
          s := Blend(alpha, val, s);
        }
      }
      assert data[..|data|] == data;
      level := s;
    }

    method Forecast(t: nat) returns (y: real)
      ensures y == s
    {
      y := s;
    }

    method Reset()
      modifies this`s, this`init
      ensures State() == FRESH_SINGLE
    {
      init := true;
      s := 0.0;
    }
  }

  /** A smoothed level never leaves the range of the samples it has seen. */
  lemma {:induction false} SingleStaysInRange(alpha: real, data: seq<real>, lo: real, hi: real)
    requires 0.0 <= alpha <= 1.0 && |data| > 0
    requires forall i :: 0 <= i < |data| ==> lo <= data[i] <= hi
    ensures !SingleRun(alpha, FRESH_SINGLE, data).init
    ensures lo <= SingleRun(alpha, FRESH_SINGLE, data).s <= hi
  {
    var n := |data|;
    if n == 1 {
      assert data[..0] == [];
    } else {
      SingleStaysInRange(alpha, data[..n - 1], lo, hi);
      BlendInRange(alpha, data[n - 1], SingleRun(alpha, FRESH_SINGLE, data[..n - 1]).s, lo, hi);
    }
  }

  /** The first k samples after the initial one, each weighed by how long before the n-th it came. */
  function Weighted(u: real, data: seq<real>, n: nat, k: nat): real
    requires k < |data| && k < n
  {
    if k == 0 then 0.0 else Weighted(u, data, n, k - 1) + Pow(u, n - 1 - k) * data[k]
  }

  lemma {:induction false} WeightedOlder(u: real, data: seq<real>, n: nat, k: nat)
    requires k < |data| && k < n
    ensures Weighted(u, data, n + 1, k) == u * Weighted(u, data, n, k)
  {
    if k > 0 {
      WeightedOlder(u, data, n, k - 1);
      OlderTerm(u, Weighted(u, data, n, k - 1), Pow(u, n - 1 - k), data[k]);
    }
  }

  lemma OlderTerm(u: real, w: real, p: real, x: real)
    ensures u * w + (u * p) * x == u * (w + p * x)
  {
  }

  lemma {:induction false} WeightedPrefix(u: real, data: seq<real>, m: nat, n: nat, k: nat)
    requires k < m <= |data| && k < n
    ensures Weighted(u, data[..m], n, k) == Weighted(u, data, n, k)
  {
    if k > 0 {
      WeightedPrefix(u, data, m, n, k - 1);
    }
  }

  /** What a level made of a decayed first sample and a weighted history amounts to. */
  function HistoryLevel(alpha: real, x0: real, decay: real, weighted: real): real {
    decay * x0 + alpha * weighted
  }

  /** The level is the geometrically weighted history: alpha for the last sample, and (1-alpha) less for each step back. */
  lemma {:induction false} SingleClosedForm(alpha: real, data: seq<real>)
    requires |data| > 0
    ensures var n, u := |data|, 1.0 - alpha;
            SingleRun(alpha, FRESH_SINGLE, data)
            == Single(HistoryLevel(alpha, data[0], Pow(u, n - 1), Weighted(u, data, n, n - 1)), false)
  {
    hide Blend, HistoryLevel;
    var n, u := |data|, 1.0 - alpha;
    if n == 1 {
      assert SingleRun(alpha, FRESH_SINGLE, data) == Single(data[0], false) by { assert data[..0] == []; }
      assert Weighted(u, data, n, 0) == 0.0 && Pow(u, 0) == 1.0;
      HistoryStart(alpha, data[0]);
    } else {
      var front := data[..n - 1];
      SingleClosedForm(alpha, front);
      WeightedPrefix(u, data, n - 1, n - 1, n - 2);
      WeightedNext(u, data, n);
      var decay, older := Pow(u, n - 2), Weighted(u, data, n - 1, n - 2);
      assert SingleRun(alpha, FRESH_SINGLE, front) == Single(HistoryLevel(alpha, data[0], decay, older), false);
      HistoryStep(alpha, u, data[0], decay, older, data[n - 1], Pow(u, n - 1), Weighted(u, data, n, n - 1));
    }
  }

  lemma HistoryStart(alpha: real, x0: real)
    ensures HistoryLevel(alpha, x0, 1.0, 0.0) == x0
  {
  }

  lemma WeightedNext(u: real, data: seq<real>, n: nat)
    requires 2 <= n <= |data|
    ensures Weighted(u, data, n, n - 1) == u * Weighted(u, data, n - 1, n - 2) + data[n - 1]
  {
    WeightedOlder(u, data, n - 1, n - 2);
    assert Pow(u, 0) == 1.0;
  }

  lemma HistoryStep(alpha: real, u: real, x0: real, decay: real, older: real, x: real, decay': real, older': real)
    requires u == 1.0 - alpha && decay' == u * decay && older' == u * older + x
    ensures Blend(alpha, x, HistoryLevel(alpha, x0, decay, older)) == HistoryLevel(alpha, x0, decay', older')
  {
    HistoryAlgebra(alpha, x0, decay, older, x);
  }

  lemma HistoryAlgebra(alpha: real, x0: real, decay: real, older: real, x: real)
    ensures Blend(alpha, x, HistoryLevel(alpha, x0, decay, older))
            == HistoryLevel(alpha, x0, (1.0 - alpha) * decay, (1.0 - alpha) * older + x)
  {
  }

  // ---------------------------------------------------------------- Holt-Winters

  datatype Holt = Holt(s: real, b: real, initS: bool, initB: bool)

  const FRESH_HOLT := Holt(0.0, 0.0, true, true)

  function HoltStep(alpha: real, beta: real, st: Holt, val: real): Holt {
    if st.initS then st.(s := val, initS := false)
    else if st.initB then st.(b := val - st.s, initB := false)
    else
      var s := Blend(alpha, val, st.s + st.b);
      st.(s := s, b := Blend(beta, s - st.s, st.b))
  }

  function HoltRun(alpha: real, beta: real, st: Holt, data: seq<real>): Holt {
    if |data| == 0 then st
    else HoltStep(alpha, beta, HoltRun(alpha, beta, st, data[..|data| - 1]), data[|data| - 1])
  }

  lemma HoltRunSnoc(alpha: real, beta: real, st: Holt, data: seq<real>, i: nat)
    requires i < |data|
    ensures HoltRun(alpha, beta, st, data[..i + 1]) == HoltStep(alpha, beta, HoltRun(alpha, beta, st, data[..i]), data[i])
  {
    assert data[..i + 1][..i] == data[..i];
  }

  class HoltWintersSmoother {
    const alpha: real
    const beta: real
    var s: real
    var b: real
    var initS: bool
    var initB: bool

    function State(): Holt
      reads this
    {
      Holt(s, b, initS, initB)
    }

    /** One parameter: Brown's discount factor written as a Holt-Winters pair. */
    constructor FromDelta(delta: real)
      requires delta != 0.0 && delta != 2.0
      ensures alpha == HoltAlpha(delta) && beta == HoltBeta(delta)
      ensures State() == FRESH_HOLT
    {
      var alpha0 := 1.0 - (1.0 - delta) * (1.0 - delta);
      HoltAlphaNonZero(delta);
      alpha := alpha0;
      beta := delta * delta / alpha0;
      s, b, initS, initB := 0.0, 0.0, true, true;
    }

    /** Two parameters.  The source leaves `b_` uninitialised here: `garbage` is its value. */
    constructor (alpha: real, beta: real, garbage: real)
      ensures this.alpha == alpha && this.beta == beta
      ensures State() == FRESH_HOLT.(b := garbage)
    {
      this.alpha := alpha;
      this.beta := beta;
      s, b, initS, initB := 0.0, garbage, true, true;
    }

    method Smooth(data: seq<real>) returns (level: real)
      modifies this
      ensures State() == HoltRun(alpha, beta, old(State()), data)
      ensures level == s
    {
      for i := 0 to |data|
        invariant State() == HoltRun(alpha, beta, old(State()), data[..i])
      {
        var val := data[i];
        HoltRunSnoc(alpha, beta, old(State()), data, i);
        if initS {
          s := val;
          initS := false;
        } else if initB {
          initB := false;
          b := val - s;
        } else {
          var oldS := s;
          s := Blend(alpha, val, oldS + b);
          b := Blend(beta, s - oldS, b);
        }
      }
      assert data[..|data|] == data;
      level := s;
    }

    method Forecast(t: nat) returns (y: real)
      ensures y == HoltForecast(State(), t)
    {
      y := s + t as real * b;
    }

    method Reset()
      modifies this
      ensures State() == FRESH_HOLT
    {
      initS, initB := true, true;
      s, b := 0.0, 0.0;
    }
  }

  function HoltForecast(st: Holt, h: nat): real {
    st.s + h as real * st.b
  }

  function HoltAlpha(delta: real): real {
    1.0 - (1.0 - delta) * (1.0 - delta)
  }

  lemma HoltAlphaNonZero(delta: real)
    requires delta != 0.0 && delta != 2.0
    ensures 1.0 - (1.0 - delta) * (1.0 - delta) != 0.0
  {
    assert 1.0 - (1.0 - delta) * (1.0 - delta) == delta * (2.0 - delta);
    NonZeroProduct(delta, 2.0 - delta, delta * (2.0 - delta));
  }

  function HoltBeta(delta: real): real
    requires delta != 0.0 && delta != 2.0
  {
    HoltAlphaNonZero(delta);
    delta * delta / HoltAlpha(delta)
  }

  /** Whatever the two-argument constructor leaves in `b_`, two samples erase it. */
  lemma {:induction false} HoltForgetsGarbage(alpha: real, beta: real, garbage: real, data: seq<real>)
    requires |data| >= 2
    ensures HoltRun(alpha, beta, FRESH_HOLT.(b := garbage), data) == HoltRun(alpha, beta, FRESH_HOLT, data)
  {
    if |data| == 2 {
      var g := FRESH_HOLT.(b := garbage);
      assert data[..1][..0] == [];
      assert HoltRun(alpha, beta, g, []) == g;
      assert HoltRun(alpha, beta, g, data[..1]) == g.(s := data[0], initS := false);
      assert HoltRun(alpha, beta, FRESH_HOLT, []) == FRESH_HOLT;
      assert HoltRun(alpha, beta, FRESH_HOLT, data[..1]) == FRESH_HOLT.(s := data[0], initS := false);
    } else {
      HoltForgetsGarbage(alpha, beta, garbage, data[..|data| - 1]);
    }
  }

  /** The source's `ready`: after one sample already. */
  predicate HoltReady(st: Holt) {
    !(st.initS && st.initB)
  }

  /** Built with two arguments, the smoother is ready after one sample, and forecasts with what was left in `b_`. */
  lemma ReadyWithGarbage(alpha: real, beta: real, garbage: real, x: real, h: nat)
    ensures var st := HoltRun(alpha, beta, FRESH_HOLT.(b := garbage), [x]);
            HoltReady(st) && HoltForecast(st, h) == x + h as real * garbage
  {
    assert [x][..0] == [];
    assert HoltRun(alpha, beta, FRESH_HOLT.(b := garbage), []) == FRESH_HOLT.(b := garbage);
  }

  /** Its forecasts are those of an initialised smoother exactly after two samples, or if zero was left. */
  lemma GarbageShowsIff(alpha: real, beta: real, garbage: real, data: seq<real>)
    ensures (forall h: nat :: HoltForecast(HoltRun(alpha, beta, FRESH_HOLT.(b := garbage), data), h)
                              == HoltForecast(HoltRun(alpha, beta, FRESH_HOLT, data), h))
            <==> |data| >= 2 || garbage == 0.0
  {
    var g := FRESH_HOLT.(b := garbage);
    if |data| >= 2 {
      HoltForgetsGarbage(alpha, beta, garbage, data);
    } else {
      if |data| == 1 {
        assert data == [data[0]] && data[..0] == [];
      }
      assert HoltRun(alpha, beta, g, []) == g && HoltRun(alpha, beta, FRESH_HOLT, []) == FRESH_HOLT;
      assert HoltForecast(HoltRun(alpha, beta, g, data), 1) == HoltForecast(HoltRun(alpha, beta, FRESH_HOLT, data), 1) + garbage;
    }
  }

  // ---------------------------------------------------------------- Brown's double smoothing

  datatype Brown = Brown(s1: real, s2: real, init: bool)

  const FRESH_BROWN := Brown(0.0, 0.0, true)

  function BrownStep(alpha: real, st: Brown, val: real): Brown {
    if st.init then Brown(val, val, false)
    else
      var s1 := Blend(alpha, val, st.s1);
      Brown(s1, Blend(alpha, s1, st.s2), false)
  }

  function BrownRun(alpha: real, st: Brown, data: seq<real>): Brown {
    if |data| == 0 then st
    else BrownStep(alpha, BrownRun(alpha, st, data[..|data| - 1]), data[|data| - 1])
  }

  lemma BrownRunSnoc(alpha: real, st: Brown, data: seq<real>, i: nat)
    requires i < |data|
    ensures BrownRun(alpha, st, data[..i + 1]) == BrownStep(alpha, BrownRun(alpha, st, data[..i]), data[i])
  {
    assert data[..i + 1][..i] == data[..i];
  }

  function Level(st: Brown): real {
    2.0 * st.s1 - st.s2
  }

  function Trend(alpha: real, st: Brown): real
    requires alpha != 1.0
  {
    alpha / (1.0 - alpha) * (st.s1 - st.s2)
  }

  function BrownForecast(alpha: real, st: Brown, h: nat): real
    requires alpha != 1.0
  {
    Level(st) + h as real * Trend(alpha, st)
  }

  /** With alpha 1 the infinite factor meets a zero difference, and the trend is not a number. */
  function TrendOf(alpha: real, st: Brown): Number {
    if alpha != 1.0 then Value(Trend(alpha, st)) else NaN
  }

  class BrownDoubleSmoother {
    const alpha: real
    var s1: real
    var s2: real
    var a: real
    var b: Number
    var init: bool

    function State(): Brown
      reads this
    {
      Brown(s1, s2, init)
    }

    /** The published level and trend are those of the two smoothed series. */
    ghost predicate Valid()
      reads this
    {
      && a == Level(State()) && (alpha == 1.0 ==> s1 == s2)
      && (b == TrendOf(alpha, State()) || (State() == FRESH_BROWN && b == Value(0.0)))
    }

    constructor (alpha: real)
      ensures this.alpha == alpha && State() == FRESH_BROWN && b == Value(0.0) && Valid()
    {
      this.alpha := alpha;
      s1, s2, a, b, init := 0.0, 0.0, 0.0, Value(0.0), true;
    }

    method Smooth(data: seq<real>) returns (level: real)
      requires Valid()
      modifies this
      ensures Valid() && State() == BrownRun(alpha, old(State()), data)
      ensures level == a && b == TrendOf(alpha, State())
    {
      for i := 0 to |data|
        invariant State() == BrownRun(alpha, old(State()), data[..i]) && (alpha == 1.0 ==> s1 == s2)
      {
        var val := data[i];
        BrownRunSnoc(alpha, old(State()), data, i);
        if init {
          s1, s2 := val, val;
          init := false;
        } else {
          s1 := Blend(alpha, val, s1);
          s2 := Blend(alpha, s1, s2);
        }
      }
      assert data[..|data|] == data;
      a := 2.0 * s1 - s2;
      b := if alpha != 1.0 then Value((alpha / (1.0 - alpha)) * (s1 - s2)) else NaN;
      level := a;
    }

    method Forecast(t: nat) returns (y: Number)
      requires Valid()
      ensures alpha != 1.0 ==> y == Value(BrownForecast(alpha, State(), t))
      ensures y.Value? <==> b.Value?
    {
      y := if b.Value? then Value(a + t as real * b.x) else NaN;
    }

    method Reset()
      requires Valid()
      modifies this
      ensures Valid() && State() == FRESH_BROWN && b == Value(0.0)
    {
      init := true;
      s1, s2, a, b := 0.0, 0.0, 0.0, Value(0.0);
    }
  }

  // ---------------------------------------------------------------- error-correction form

  /** Level after a sample x that was forecast with error e. */
  function LevelAfter(delta: real, x: real, e: real): real {
    x - (1.0 - delta) * (1.0 - delta) * e
  }

  /** Trend after a sample that was forecast with error e. */
  function TrendAfter(delta: real, trend: real, e: real): real {
    trend + delta * delta * e
  }

  /** With any two parameters a step adds the share alpha of the forecast error to the forecast, and alpha*beta of it to the trend. */
  lemma HoltErrorForm(alpha: real, beta: real, st: Holt, x: real)
    requires !st.initS && !st.initB
    ensures var st' := HoltStep(alpha, beta, st, x);
            var e := x - (st.s + st.b);
            && st'.s == st.s + st.b + alpha * e
            && st'.b == st.b + alpha * beta * e
  {
    var e := x - (st.s + st.b);
    var s' := Blend(alpha, x, st.s + st.b);
    assert s' == st.s + st.b + alpha * e;
    TrendError(alpha, beta, st.b, e, s' - st.s);
  }

  lemma TrendError(alpha: real, beta: real, b: real, e: real, d: real)
    requires d == b + alpha * e
    ensures Blend(beta, d, b) == b + alpha * beta * e
  {
    assert Blend(beta, d, b) == b + beta * (d - b);
  }

  /** A Holt-Winters step built from `delta` adds fixed multiples of the forecast error. */
  lemma HoltCorrection(delta: real, st: Holt, x: real)
    requires 0.0 < delta < 1.0 && !st.initS && !st.initB
    ensures var st' := HoltStep(HoltAlpha(delta), HoltBeta(delta), st, x);
            var e := x - (st.s + st.b);
            && st'.s == LevelAfter(delta, x, e)
            && st'.b == TrendAfter(delta, st.b, e)
            && !st'.initS && !st'.initB
  {
    HoltAlphaNonZero(delta);
    HoltAlgebra(delta, HoltAlpha(delta), HoltBeta(delta), st.s, st.b, x);
  }

  lemma HoltAlgebra(delta: real, alpha: real, beta: real, s: real, b: real, x: real)
    requires alpha == 1.0 - (1.0 - delta) * (1.0 - delta) && beta * alpha == delta * delta
    ensures var s' := Blend(alpha, x, s + b);
            var e := x - (s + b);
            && s' == LevelAfter(delta, x, e)
            && Blend(beta, s' - s, b) == TrendAfter(delta, b, e)
  {
    var e := x - (s + b);
    var s' := Blend(alpha, x, s + b);
    assert s' == x - (1.0 - alpha) * e;
    assert s' == s + b + alpha * e;
    assert Blend(beta, s' - s, b) == b + beta * (s' - s - b);
    assert beta * (alpha * e) == (beta * alpha) * e;
  }

  /** So does a step of Brown's double smoother, with the same multiples. */
  lemma BrownCorrection(alpha: real, st: Brown, x: real)
    requires 0.0 < alpha < 1.0 && !st.init
    ensures var st' := BrownStep(alpha, st, x);
            var e := x - (Level(st) + Trend(alpha, st));
            && Level(st') == LevelAfter(alpha, x, e)
            && Trend(alpha, st') == TrendAfter(alpha, Trend(alpha, st), e)
            && !st'.init
  {
    var r := alpha / (1.0 - alpha);
    assert r * (1.0 - alpha) == alpha;
    BrownAlgebra(alpha, r, st.s1, st.s2, x);
  }

  lemma BrownAlgebra(alpha: real, r: real, s1: real, s2: real, x: real)
    requires r * (1.0 - alpha) == alpha
    ensures var t1 := Blend(alpha, x, s1);
            var t2 := Blend(alpha, t1, s2);
            var e := x - (2.0 * s1 - s2 + r * (s1 - s2));
            && 2.0 * t1 - t2 == LevelAfter(alpha, x, e)
            && r * (t1 - t2) == TrendAfter(alpha, r * (s1 - s2), e)
  {
    // In terms of d = s1 - s2, z = r*d and g = x - s1.
    var d, z, g := s1 - s2, r * (s1 - s2), x - s1;
    var e := g - d - z;
    var t1 := Blend(alpha, x, s1);
    var t2 := Blend(alpha, t1, s2);
    assert z - alpha * z == alpha * d by { assert (r * (1.0 - alpha)) * d == z - alpha * z; }
    assert t1 == s1 + alpha * g;
    assert t2 == t1 - (1.0 - alpha) * (d + alpha * g);
    assert 2.0 * t1 - t2 == x - (1.0 - alpha) * g + (1.0 - alpha) * d + (1.0 - alpha) * (alpha * g);
    LevelGap(alpha, d, z, g);
    assert r * (t1 - t2) == (r * (1.0 - alpha)) * (d + alpha * g);
    TrendGap(alpha, d, z, g);
  }

  lemma LevelGap(alpha: real, d: real, z: real, g: real)
    requires z - alpha * z == alpha * d
    ensures (1.0 - alpha) * (1.0 - alpha) * (g - d - z) == (1.0 - alpha) * g - (1.0 - alpha) * d - (1.0 - alpha) * (alpha * g)
  {
    assert (1.0 - alpha) * (g - d - z) == (1.0 - alpha) * g - d;
    assert (1.0 - alpha) * ((1.0 - alpha) * g - d) == (1.0 - alpha) * g - (1.0 - alpha) * d - (1.0 - alpha) * (alpha * g);
  }

  lemma TrendGap(alpha: real, d: real, z: real, g: real)
    requires z - alpha * z == alpha * d
    ensures alpha * (d + alpha * g) == z + alpha * alpha * (g - d - z)
  {
    assert alpha * (z - alpha * z) == alpha * (alpha * d);
    assert alpha * alpha * (g - d - z) == alpha * alpha * g - alpha * (alpha * d) - alpha * alpha * z;
  }

  // ---------------------------------------------------------------- the two smoothers compared

  ghost predicate Agree(h: Holt, alpha: real, b: Brown)
    requires alpha != 1.0
  {
    h.s == Level(b) && h.b == Trend(alpha, b)
  }

  /** One more sample neither creates nor removes a disagreement. */
  lemma AgreementIsInvariant(delta: real, h: Holt, b: Brown, x: real)
    requires 0.0 < delta < 1.0 && !h.initS && !h.initB && !b.init
    ensures Agree(HoltStep(HoltAlpha(delta), HoltBeta(delta), h, x), delta, BrownStep(delta, b, x))
            <==> Agree(h, delta, b)
  {
    HoltCorrection(delta, h, x);
    BrownCorrection(delta, b, x);
    var h' := HoltStep(HoltAlpha(delta), HoltBeta(delta), h, x);
    var b' := BrownStep(delta, b, x);
    SameGaps(delta, h.s, h.b, Level(b), Trend(delta, b), x, h'.s, h'.b, Level(b'), Trend(delta, b'));
  }

  lemma SameGaps(delta: real, s: real, b: real, lv: real, tr: real, x: real,
                 s': real, b': real, lv': real, tr': real)
    requires delta < 1.0
    requires s' == LevelAfter(delta, x, x - (s + b)) && b' == TrendAfter(delta, b, x - (s + b))
    requires lv' == LevelAfter(delta, x, x - (lv + tr)) && tr' == TrendAfter(delta, tr, x - (lv + tr))
    ensures s' == lv' && b' == tr' <==> s == lv && b == tr
  {
    var gap := (s + b) - (lv + tr);
    var u := 1.0 - delta;
    var uu := u * u;
    assert s' - lv' == uu * gap;
    assert b' - tr' == (b - tr) - delta * delta * gap;
    NonZeroProduct(u, u, uu);
    if gap != 0.0 {
      NonZeroProduct(uu, gap, uu * gap);
    }
  }

  /**
   * Built from `delta`, Holt-Winters and Brown's double smoother hold the same level and trend
   * after two or more samples exactly when the first two samples are equal.
   */
  lemma {:induction false} SameMachineIff(delta: real, data: seq<real>)
    requires 0.0 < delta < 1.0 && |data| >= 2
    ensures var h := HoltRun(HoltAlpha(delta), HoltBeta(delta), FRESH_HOLT, data);
            var b := BrownRun(delta, FRESH_BROWN, data);
            && !h.initS && !h.initB && !b.init
            && (Agree(h, delta, b) <==> data[0] == data[1])
  {
    var alpha, beta := HoltAlpha(delta), HoltBeta(delta);
    var n := |data|;
    var front := data[..n - 1];
    if n == 2 {
      assert front[..0] == [];
      assert HoltRun(alpha, beta, FRESH_HOLT, front) == Holt(data[0], 0.0, false, true);
      assert BrownRun(delta, FRESH_BROWN, front) == Brown(data[0], data[0], false);
      var b0 := Brown(data[0], data[0], false);
      BrownCorrection(delta, b0, data[1]);
      SecondSample(delta, data[0], data[1]);
      assert Level(b0) + Trend(delta, b0) == data[0];
    } else {
      SameMachineIff(delta, front);
      AgreementIsInvariant(delta, HoltRun(alpha, beta, FRESH_HOLT, front), BrownRun(delta, FRESH_BROWN, front),
                           data[n - 1]);
    }
  }

  lemma SecondSample(delta: real, x0: real, x1: real)
    requires 0.0 < delta < 1.0
    ensures x0 == LevelAfter(delta, x1, x1 - x0) <==> x0 == x1
  {
    var e, k := x1 - x0, delta * (2.0 - delta);
    assert LevelAfter(delta, x1, e) - x0 == k * e;
    NonZeroProduct(delta, 2.0 - delta, delta * (2.0 - delta));
    if e != 0.0 {
      NonZeroProduct(k, e, k * e);
    }
  }

  /** The same law as seen through the forecasts: equal at every horizon, or not, for good. */
  lemma SameForecastsIff(delta: real, data: seq<real>)
    requires 0.0 < delta < 1.0 && |data| >= 2
    ensures (forall h: nat :: HoltForecast(HoltRun(HoltAlpha(delta), HoltBeta(delta), FRESH_HOLT, data), h)
                              == BrownForecast(delta, BrownRun(delta, FRESH_BROWN, data), h))
            <==> data[0] == data[1]
  {
    hide HoltRun, BrownRun, HoltAlpha, HoltBeta, Trend;
    SameMachineIff(delta, data);
    var hw := HoltRun(HoltAlpha(delta), HoltBeta(delta), FRESH_HOLT, data);
    var br := BrownRun(delta, FRESH_BROWN, data);
    if forall h: nat :: HoltForecast(hw, h) == BrownForecast(delta, br, h) {
      assert HoltForecast(hw, 0) == BrownForecast(delta, br, 0);
      assert HoltForecast(hw, 1) == BrownForecast(delta, br, 1);
    }
  }

  // ---------------------------------------------------------------- tracking a line

  function LineAt(a: real, b: real, t: nat): real {
    a + b * t as real
  }

  /** The first n samples of the line a + b*t. */
  function Line(a: real, b: real, n: nat): (s: seq<real>)
    ensures |s| == n && forall t :: 0 <= t < n ==> s[t] == LineAt(a, b, t)
  {
    seq(n, t requires 0 <= t < n => LineAt(a, b, t))
  }

  /** Brown's level after the samples 0..t of a line. */
  function LevelOnLine(alpha: real, a: real, b: real, t: nat): real {
    LaggingLevel(a, b, t as real, Pow(1.0 - alpha, t + 1))
  }

  function LaggingLevel(a: real, b: real, t: real, decay: real): real {
    a + b * t - b * t * decay
  }

  /** Brown's trend after the samples 0..t of a line. */
  function TrendOnLine(alpha: real, b: real, t: nat): real {
    LaggingTrend(alpha, b, t as real, Pow(1.0 - alpha, t))
  }

  function LaggingTrend(alpha: real, b: real, t: real, decay: real): real {
    b - b * decay * (1.0 + alpha * t)
  }

  /** On a line, Brown's level and trend lag by a closed form, at every time t. */
  lemma {:induction false} BrownOnLine(alpha: real, a: real, b: real, t: nat)
    requires 0.0 < alpha < 1.0
    ensures var st := BrownRun(alpha, FRESH_BROWN, Line(a, b, t + 1));
            !st.init && Level(st) == LevelOnLine(alpha, a, b, t) && Trend(alpha, st) == TrendOnLine(alpha, b, t)
  {
    var data := Line(a, b, t + 1);
    assert data[..t] == Line(a, b, t);
    if t == 0 {
      assert BrownRun(alpha, FRESH_BROWN, data[..0]) == FRESH_BROWN;
      LineStart(alpha, a, b);
    } else {
      BrownOnLine(alpha, a, b, t - 1);
      BrownStepOnLine(alpha, a, b, t, BrownRun(alpha, FRESH_BROWN, Line(a, b, t)));
    }
  }

  lemma LineStart(alpha: real, a: real, b: real)
    requires 0.0 < alpha < 1.0
    ensures var st := BrownStep(alpha, FRESH_BROWN, LineAt(a, b, 0));
            !st.init && Level(st) == LevelOnLine(alpha, a, b, 0) && Trend(alpha, st) == TrendOnLine(alpha, b, 0)
  {
  }

  lemma BrownStepOnLine(alpha: real, a: real, b: real, t: nat, st: Brown)
    requires 0.0 < alpha < 1.0 && t > 0 && !st.init
    requires Level(st) == LevelOnLine(alpha, a, b, t - 1) && Trend(alpha, st) == TrendOnLine(alpha, b, t - 1)
    ensures var st' := BrownStep(alpha, st, LineAt(a, b, t));
            !st'.init && Level(st') == LevelOnLine(alpha, a, b, t) && Trend(alpha, st') == TrendOnLine(alpha, b, t)
  {
    BrownCorrection(alpha, st, LineAt(a, b, t));
    var u := 1.0 - alpha;
    PowSteps(u, t);
    LineStep(alpha, a, b, t, Pow(u, t - 1), Pow(u, t), Pow(u, t + 1));
  }

  lemma PowSteps(u: real, t: nat)
    requires t > 0
    ensures Pow(u, t) == u * Pow(u, t - 1) && Pow(u, t + 1) == u * (u * Pow(u, t - 1))
  {
  }

  /** The algebra of one step; p, q and r are consecutive powers of 1 - alpha. */
  lemma LineStep(alpha: real, a: real, b: real, t: nat, p: real, q: real, r: real)
    requires t > 0 && q == (1.0 - alpha) * p && r == (1.0 - alpha) * q
    ensures var lv, tr := LaggingLevel(a, b, (t - 1) as real, q), LaggingTrend(alpha, b, (t - 1) as real, p);
            var x := LineAt(a, b, t);
            && LevelAfter(alpha, x, x - (lv + tr)) == LaggingLevel(a, b, t as real, r)
            && TrendAfter(alpha, tr, x - (lv + tr)) == LaggingTrend(alpha, b, t as real, q)
  {
    hide LaggingLevel, LaggingTrend;
    assert (t - 1) as real == t as real - 1.0;
    assert r == (1.0 - alpha) * ((1.0 - alpha) * p);
    LineError(alpha, a, b, t as real, p);
    LineLevel(alpha, a, b, t as real, p);
    LineTrend(alpha, b, t as real, p);
  }

  lemma LineError(alpha: real, a: real, b: real, t: real, p: real)
    ensures a + b * t - (LaggingLevel(a, b, t - 1.0, (1.0 - alpha) * p) + LaggingTrend(alpha, b, t - 1.0, p))
            == b * p * t
  {
  }

  lemma LineLevel(alpha: real, a: real, b: real, t: real, p: real)
    ensures LevelAfter(alpha, a + b * t, b * p * t) == LaggingLevel(a, b, t, (1.0 - alpha) * ((1.0 - alpha) * p))
  {
  }

  lemma LineTrend(alpha: real, b: real, t: real, p: real)
    ensures TrendAfter(alpha, LaggingTrend(alpha, b, t - 1.0, p), b * p * t) == LaggingTrend(alpha, b, t, (1.0 - alpha) * p)
  {
  }

  /** The exact error of an h-step forecast made at time t on a line. */
  lemma BrownForecastError(alpha: real, a: real, b: real, t: nat, h: nat)
    requires 0.0 < alpha < 1.0
    ensures LineAt(a, b, t + h) - BrownForecast(alpha, BrownRun(alpha, FRESH_BROWN, Line(a, b, t + 1)), h)
            == ForecastLag(alpha, b, t as real, h as real, Pow(1.0 - alpha, t))
  {
    hide BrownRun, Line, LaggingLevel, LaggingTrend, ForecastLag, LineAt, Pow, Level, Trend;
    BrownOnLine(alpha, a, b, t);
    var st := BrownRun(alpha, FRESH_BROWN, Line(a, b, t + 1));
    var p, q := Pow(1.0 - alpha, t), Pow(1.0 - alpha, t + 1);
    assert q == (1.0 - alpha) * p by { PowSteps(1.0 - alpha, t + 1); }
    ForecastGap(alpha, a, b, t, h, p, q, Level(st), Trend(alpha, st));
  }

  lemma ForecastGap(alpha: real, a: real, b: real, t: nat, h: nat, p: real, q: real, lv: real, tr: real)
    requires q == (1.0 - alpha) * p && lv == LaggingLevel(a, b, t as real, q) && tr == LaggingTrend(alpha, b, t as real, p)
    ensures LineAt(a, b, t + h) - (lv + h as real * tr) == ForecastLag(alpha, b, t as real, h as real, p)
  {
    assert (t + h) as real == t as real + h as real;
    ForecastAlgebra(alpha, a, b, t as real, h as real, p);
  }

  function ForecastLag(alpha: real, b: real, t: real, h: real, decay: real): real {
    b * decay * ((1.0 - alpha) * t + h * (1.0 + alpha * t))
  }

  lemma ForecastAlgebra(alpha: real, a: real, b: real, t: real, h: real, p: real)
    ensures a + b * (t + h) - (LaggingLevel(a, b, t, (1.0 - alpha) * p) + h * LaggingTrend(alpha, b, t, p))
            == ForecastLag(alpha, b, t, h, p)
  {
  }

  /** A scaled error, weight * |error|, is at most |b| * decay. */
  ghost predicate Vanishing(weight: real, error: real, b: real, decay: real) {
    weight * Abs(error) <= Abs(b) * decay
  }

  /** The lag dies out geometrically, with ratio 1 - alpha^2. */
  lemma BrownConvergesOnLine(alpha: real, a: real, b: real, t: nat)
    requires 0.0 < alpha < 1.0
    ensures var st := BrownRun(alpha, FRESH_BROWN, Line(a, b, t + 1));
            && Vanishing(alpha, LineAt(a, b, t) - Level(st), b, Pow(1.0 - alpha * alpha, t))
            && Vanishing(1.0, b - Trend(alpha, st), b, Pow(1.0 - alpha * alpha, t))
  {
    BrownOnLine(alpha, a, b, t);
    var at := alpha * t as real;
    var p, p1, g, q := Pow(1.0 - alpha, t), Pow(1.0 - alpha, t + 1), Pow(1.0 + alpha, t), Pow(1.0 - alpha * alpha, t);
    Decay(alpha, t, at, p, p1, g, q);
    LevelBound(alpha, a, b, t as real, at, p, p1, g, q, LineAt(a, b, t) - LevelOnLine(alpha, a, b, t));
    TrendBound(alpha, b, t as real, at, p, g, q, b - TrendOnLine(alpha, b, t));
  }

  lemma Decay(alpha: real, t: nat, at: real, p: real, p1: real, g: real, q: real)
    requires 0.0 < alpha < 1.0 && at == alpha * t as real
    requires p == Pow(1.0 - alpha, t) && p1 == Pow(1.0 - alpha, t + 1)
    requires g == Pow(1.0 + alpha, t) && q == Pow(1.0 - alpha * alpha, t)
    ensures 0.0 <= at && 0.0 <= p && 1.0 + at <= g && q == p * g && p1 == (1.0 - alpha) * p
  {
    Bernoulli(alpha, t);
    PowNonNegative(1.0 - alpha, t);
    PowProduct(1.0 - alpha, 1.0 + alpha, 1.0 - alpha * alpha, t);
    MulNonNegative(alpha, t as real, at);
  }

  lemma LevelBound(alpha: real, a: real, b: real, t: real, at: real, p: real, p1: real, g: real, q: real, gap: real)
    requires 0.0 < alpha < 1.0 && at == alpha * t && 0.0 <= at && 0.0 <= p
    requires 1.0 + at <= g && q == p * g && p1 == (1.0 - alpha) * p
    requires gap == a + b * t - LaggingLevel(a, b, t, p1)
    ensures Vanishing(alpha, gap, b, q)
  {
    var z := p * at;
    MulNonNegative(p, at, z);
    MulLe(p, 1.0 + at, g, p + z, q);
    var lag := (1.0 - alpha) * z;
    ShareOf(1.0 - alpha, z, lag);
    LevelLag(alpha, a, b, t, p, gap);
    ScaledBound(alpha, gap, b, lag, q);
  }

  lemma LevelLag(alpha: real, a: real, b: real, t: real, p: real, gap: real)
    requires gap == a + b * t - LaggingLevel(a, b, t, (1.0 - alpha) * p)
    ensures alpha * gap == b * ((1.0 - alpha) * (p * (alpha * t)))
  {
  }

  lemma TrendBound(alpha: real, b: real, t: real, at: real, p: real, g: real, q: real, gap: real)
    requires at == alpha * t && 0.0 <= at && 0.0 <= p
    requires 1.0 + at <= g && q == p * g
    requires gap == b - LaggingTrend(alpha, b, t, p)
    ensures Vanishing(1.0, gap, b, q)
  {
    var z := p * at;
    MulNonNegative(p, at, z);
    MulLe(p, 1.0 + at, g, p + z, q);
    TrendLag(alpha, b, t, p, gap);
    ScaledBound(1.0, gap, b, p + z, q);
  }

  lemma TrendLag(alpha: real, b: real, t: real, p: real, gap: real)
    requires gap == b - LaggingTrend(alpha, b, t, p)
    ensures gap == b * (p + p * (alpha * t))
  {
  }

  lemma ScaledBound(k: real, gap: real, b: real, lag: real, q: real)
    requires 0.0 < k && 0.0 <= lag <= q && k * gap == b * lag
    ensures Vanishing(k, gap, b, q)
  {
    var c, y, z := Abs(b), Abs(b) * lag, Abs(b) * q;
    MulLe(c, lag, q, y, z);
    var r := k * gap;
    assert r == y || r == -y;
    var w := k * Abs(gap);
    MulNonNegative(k, Abs(gap), w);
    MulNonNegative(c, lag, y);
    assert w == r || w == -r;
  }

  // ---------------------------------------------------------------- Holt-Winters on a line

  /** The level after the samples 0..n+1 of a line, at time t = n + 1. */
  function HoltLagLevel(delta: real, a: real, b: real, t: real, n: real, decay: real): real {
    a + b * t - b * decay * (1.0 - delta * n)
  }

  /** Its trend; `decay` is one power less. */
  function HoltLagTrend(delta: real, b: real, n: real, decay: real): real {
    b + b * (delta * delta) * (n * decay)
  }

  /** (1 - delta)^(n-1), which does not matter for n = 0. */
  function PreviousPow(u: real, n: nat): real {
    if n == 0 then 0.0 else Pow(u, n - 1)
  }

  function HoltLevelOnLine(delta: real, a: real, b: real, n: nat): real {
    HoltLagLevel(delta, a, b, (n + 1) as real, n as real, Pow(1.0 - delta, n))
  }

  function HoltTrendOnLine(delta: real, b: real, n: nat): real {
    HoltLagTrend(delta, b, n as real, PreviousPow(1.0 - delta, n))
  }

  /** On a line, Holt-Winters built from delta lags by a closed form, from the second sample on. */
  lemma {:induction false} HoltOnLine(delta: real, a: real, b: real, n: nat)
    requires 0.0 < delta < 1.0
    ensures var st := HoltRun(HoltAlpha(delta), HoltBeta(delta), FRESH_HOLT, Line(a, b, n + 2));
            && !st.initS && !st.initB
            && st.s == HoltLevelOnLine(delta, a, b, n) && st.b == HoltTrendOnLine(delta, b, n)
  {
    hide HoltAlpha, HoltBeta;
    var alpha, beta, data := HoltAlpha(delta), HoltBeta(delta), Line(a, b, n + 2);
    assert data[..n + 1] == Line(a, b, n + 1);
    if n == 0 {
      assert HoltRun(alpha, beta, FRESH_HOLT, data[..1][..0]) == FRESH_HOLT;
      assert HoltRun(alpha, beta, FRESH_HOLT, data[..1]) == Holt(a, 0.0, false, true);
      assert HoltRun(alpha, beta, FRESH_HOLT, data) == Holt(a, b, false, false);
      HoltLineStart(delta, a, b);
    } else {
      HoltOnLine(delta, a, b, n - 1);
      var st := HoltRun(alpha, beta, FRESH_HOLT, Line(a, b, n + 1));
      HoltCorrection(delta, st, LineAt(a, b, n + 1));
      HoltLineStep(delta, a, b, n, st.s, st.b);
    }
  }

  lemma HoltLineStart(delta: real, a: real, b: real)
    ensures HoltLevelOnLine(delta, a, b, 0) == a && HoltTrendOnLine(delta, b, 0) == b
  {
  }

  lemma HoltLineStep(delta: real, a: real, b: real, n: nat, s: real, tr: real)
    requires n > 0 && s == HoltLevelOnLine(delta, a, b, n - 1) && tr == HoltTrendOnLine(delta, b, n - 1)
    ensures var x := LineAt(a, b, n + 1);
            && LevelAfter(delta, x, x - (s + tr)) == HoltLevelOnLine(delta, a, b, n)
            && TrendAfter(delta, tr, x - (s + tr)) == HoltTrendOnLine(delta, b, n)
  {
    if n == 1 {
      HoltFirstStep(delta, a, b);
    } else {
      hide HoltLagLevel, HoltLagTrend, LevelAfter, TrendAfter, LineAt;
      PowSteps(1.0 - delta, n - 1);
      HoltLagStep(delta, a, b, n, Pow(1.0 - delta, n - 2), Pow(1.0 - delta, n - 1), Pow(1.0 - delta, n));
    }
  }

  lemma HoltFirstStep(delta: real, a: real, b: real)
    ensures var x := LineAt(a, b, 2);
            var s, tr := HoltLevelOnLine(delta, a, b, 0), HoltTrendOnLine(delta, b, 0);
            && LevelAfter(delta, x, x - (s + tr)) == HoltLevelOnLine(delta, a, b, 1)
            && TrendAfter(delta, tr, x - (s + tr)) == HoltTrendOnLine(delta, b, 1)
  {
    HoltLineStart(delta, a, b);
    HoltThirdSample(delta, a, b);
    assert Pow(1.0 - delta, 0) == 1.0 && Pow(1.0 - delta, 1) == 1.0 - delta;
  }

  /** The algebra of one step; p, q and r are consecutive powers of 1 - delta. */
  lemma HoltLagStep(delta: real, a: real, b: real, n: nat, p: real, q: real, r: real)
    requires n > 0 && q == (1.0 - delta) * p && r == (1.0 - delta) * q
    ensures var s, tr := HoltLagLevel(delta, a, b, n as real, (n - 1) as real, q), HoltLagTrend(delta, b, (n - 1) as real, p);
            var x := LineAt(a, b, n + 1);
            && LevelAfter(delta, x, x - (s + tr)) == HoltLagLevel(delta, a, b, (n + 1) as real, n as real, r)
            && TrendAfter(delta, tr, x - (s + tr)) == HoltLagTrend(delta, b, n as real, q)
  {
    var x := LineAt(a, b, n + 1);
    assert x == a + b * (n as real + 1.0);
    hide HoltLagLevel, HoltLagTrend, LevelAfter, TrendAfter, LineAt;
    var m := n as real;
    assert (n - 1) as real == m - 1.0 && (n + 1) as real == m + 1.0;
    var s, tr := HoltLagLevel(delta, a, b, m, m - 1.0, q), HoltLagTrend(delta, b, m - 1.0, p);
    var e := x - (s + tr);
    HoltErrorAt(delta, a, b, m, p, q, x, e);
    HoltLevelAt(delta, a, b, m, p, q, r, x, e);
    HoltTrendAt(delta, b, m, p, q, e);
  }

  lemma HoltErrorAt(delta: real, a: real, b: real, n: real, p: real, q: real, x: real, e: real)
    requires q == (1.0 - delta) * p && x == a + b * (n + 1.0)
    requires e == x - (HoltLagLevel(delta, a, b, n, n - 1.0, q) + HoltLagTrend(delta, b, n - 1.0, p))
    ensures e == b * p * ((1.0 - delta) - delta * (n - 1.0))
  {
    hide HoltLagLevel, HoltLagTrend;
    HoltError(delta, a, b, n, p);
  }

  lemma HoltLevelAt(delta: real, a: real, b: real, n: real, p: real, q: real, r: real, x: real, e: real)
    requires q == (1.0 - delta) * p && r == (1.0 - delta) * q
    requires x == a + b * (n + 1.0) && e == b * p * ((1.0 - delta) - delta * (n - 1.0))
    ensures LevelAfter(delta, x, e) == HoltLagLevel(delta, a, b, n + 1.0, n, r)
  {
    var u := 1.0 - delta;
    Twice(u, p, q, r);
    LevelRing(u, delta, b, n, p, e, r);
  }

  lemma LevelRing(u: real, delta: real, b: real, n: real, p: real, e: real, r: real)
    requires u == 1.0 - delta && e == b * p * (u - delta * (n - 1.0)) && r == u * (u * p)
    ensures u * u * e == b * r * (1.0 - delta * n)
  {
  }

  lemma Twice(u: real, p: real, q: real, r: real)
    requires q == u * p && r == u * q
    ensures r == u * (u * p)
  {
  }

  lemma HoltTrendAt(delta: real, b: real, n: real, p: real, q: real, e: real)
    requires q == (1.0 - delta) * p && e == b * p * ((1.0 - delta) - delta * (n - 1.0))
    ensures TrendAfter(delta, HoltLagTrend(delta, b, n - 1.0, p), e) == HoltLagTrend(delta, b, n, q)
  {
    hide HoltLagTrend, TrendAfter;
    HoltTrendStep(delta, b, n, p);
  }

  lemma HoltThirdSample(delta: real, a: real, b: real)
    ensures LevelAfter(delta, a + b * 2.0, b) == HoltLagLevel(delta, a, b, 2.0, 1.0, 1.0 - delta)
    ensures TrendAfter(delta, b, b) == HoltLagTrend(delta, b, 1.0, 1.0)
  {
  }

  lemma HoltError(delta: real, a: real, b: real, n: real, p: real)
    ensures a + b * (n + 1.0) - (HoltLagLevel(delta, a, b, n, n - 1.0, (1.0 - delta) * p) + HoltLagTrend(delta, b, n - 1.0, p))
            == b * p * ((1.0 - delta) - delta * (n - 1.0))
  {
  }

  lemma HoltTrendStep(delta: real, b: real, n: real, p: real)
    ensures TrendAfter(delta, HoltLagTrend(delta, b, n - 1.0, p), b * p * ((1.0 - delta) - delta * (n - 1.0)))
            == HoltLagTrend(delta, b, n, (1.0 - delta) * p)
  {
  }

  /** The exact error of an h-step forecast made at time n + 1 on a line; it can change its sign. */
  lemma HoltForecastError(delta: real, a: real, b: real, n: nat, h: nat)
    requires 0.0 < delta < 1.0
    ensures LineAt(a, b, n + 1 + h) - HoltForecast(HoltRun(HoltAlpha(delta), HoltBeta(delta), FRESH_HOLT, Line(a, b, n + 2)), h)
            == HoltLag(delta, b, n as real, h as real, Pow(1.0 - delta, n), PreviousPow(1.0 - delta, n))
  {
    hide HoltAlpha, HoltBeta, HoltRun, HoltLag, HoltLagLevel, HoltLagTrend, Pow, PreviousPow;
    HoltOnLine(delta, a, b, n);
    assert (n + 1 + h) as real == (n + 1) as real + h as real;
    HoltForecastAlgebra(delta, a, b, (n + 1) as real, n as real, h as real, Pow(1.0 - delta, n), PreviousPow(1.0 - delta, n));
  }

  function HoltLag(delta: real, b: real, n: real, h: real, decay: real, previous: real): real {
    b * decay * (1.0 - delta * n) - h * (b * (delta * delta) * (n * previous))
  }

  lemma HoltForecastAlgebra(delta: real, a: real, b: real, t: real, n: real, h: real, q: real, p: real)
    ensures a + b * (t + h) - (HoltLagLevel(delta, a, b, t, n, q) + h * HoltLagTrend(delta, b, n, p))
            == HoltLag(delta, b, n, h, q, p)
  {
  }

  /** One step ahead, from the third sample on, the error is b * (1-delta)^(n-1) * ((1-delta) - delta*n). */
  lemma HoltNextError(delta: real, a: real, b: real, n: nat)
    requires 0.0 < delta < 1.0 && n > 0
    ensures LineAt(a, b, n + 2) - HoltForecast(HoltRun(HoltAlpha(delta), HoltBeta(delta), FRESH_HOLT, Line(a, b, n + 2)), 1)
            == HoltNextLag(delta, b, n as real, Pow(1.0 - delta, n - 1))
  {
    hide HoltAlpha, HoltBeta, HoltRun, HoltForecast, HoltLag, LineAt, HoltNextLag;
    HoltForecastError(delta, a, b, n, 1);
    var p := Pow(1.0 - delta, n - 1);
    NextErrorAlgebra(delta, b, n as real, p, Pow(1.0 - delta, n));
  }

  function HoltNextLag(delta: real, b: real, n: real, decay: real): real {
    b * decay * ((1.0 - delta) - delta * n)
  }

  lemma NextErrorAlgebra(delta: real, b: real, n: real, p: real, q: real)
    requires q == (1.0 - delta) * p
    ensures HoltLag(delta, b, n, 1.0, q, p) == HoltNextLag(delta, b, n, p)
  {
    NextErrorRing(delta, b, n, p);
  }

  lemma NextErrorRing(delta: real, b: real, n: real, p: real)
    ensures HoltLag(delta, b, n, 1.0, (1.0 - delta) * p, p) == HoltNextLag(delta, b, n, p)
  {
  }
}
