/**
 * The incremental quantile agent: a grid of 251 probabilities, the stored quantiles at these
 * probabilities, and a buffer of data not yet merged.
 */
module Chambers {
  import opened Reals
  import opened Sorting
  import opened QuantileMerge
  import opened FirstBatch

  const NQ: nat := 251

  // ---------------------------------------------------------------- the probability grid

  /** Geometric up to 0.1, hundredths up to 0.9, and symmetric about one half. */
  function GridAt(k: nat): real
    requires k < NQ
    decreases if k <= 85 then 85 - k else k
  {
    if k < 85 then 0.87191909 * GridAt(k + 1)
    else if k <= 165 then (k - 75) as real / 100.0
    else 1.0 - GridAt(250 - k)
  }

  lemma GridMiddle(k: nat)
    requires 85 <= k <= 165
    ensures GridAt(k) == (k - 75) as real / 100.0
  {
  }

  lemma GridBelow(k: nat)
    requires k < 85
    ensures GridAt(k) == 0.87191909 * GridAt(k + 1) && GridAt(250 - k) == 1.0 - GridAt(k)
  {
  }

  function InitialGrid(): (p: seq<real>)
    ensures |p| == NQ && forall k :: 0 <= k < NQ ==> p[k] == GridAt(k)
  {
    seq(NQ, k requires 0 <= k < NQ => GridAt(k))
  }

  lemma {:induction false} GridLow(k: nat)
    requires k <= 85
    ensures 0.0 < GridAt(k) <= 0.1
    ensures k < 85 ==> GridAt(k) < GridAt(k + 1)
    decreases 85 - k
  {
    if k < 85 {
      GridLow(k + 1);
    }
  }

  lemma GridRises(k: nat)
    requires k < NQ - 1
    ensures GridAt(k) < GridAt(k + 1)
  {
    if k < 85 {
      GridLow(k);
    } else if k >= 165 {
      GridLow(249 - k);
    }
  }

  /** The grid between rewrites: initial inside, with adapted symmetric end points. */
  ghost predicate IsGrid(p: seq<real>) {
    && |p| == NQ
    && (forall k :: 1 <= k < NQ - 1 ==> p[k] == GridAt(k))
    && 0.0 < p[0] < p[1] && p[NQ - 1] == 1.0 - p[0]
  }

  lemma InitialIsGrid()
    ensures IsGrid(InitialGrid())
  {
    GridLow(0);
  }

  lemma {:induction false} GridIncreases(p: seq<real>, i: nat, j: nat)
    requires IsGrid(p) && i < j < NQ
    ensures p[i] < p[j]
    decreases j - i
  {
    if i + 1 == j {
      GridRises(i);
      if j == NQ - 1 {
        assert GridAt(249) == 1.0 - GridAt(1);
      }
    } else {
      GridIncreases(p, i, j - 1);
      GridIncreases(p, j - 1, j);
    }
  }

  /** The grid is symmetric, strictly increasing, and inside (0, 1). */
  lemma GridShape(p: seq<real>)
    requires IsGrid(p)
    ensures Probabilities(p) && Increasing(p)
    ensures forall k :: 0 <= k < NQ ==> p[NQ - 1 - k] == 1.0 - p[k]
  {
    hide GridAt;
    forall i, j | 0 <= i < j < NQ
      ensures p[i] < p[j]
    {
      GridIncreases(p, i, j);
    }
    GridEnds(p);
    RisingInside(p);
    forall k | 0 <= k < NQ
      ensures p[NQ - 1 - k] == 1.0 - p[k]
    {
      Mirror(p, k);
    }
  }

  lemma RisingInside(p: seq<real>)
    requires |p| == NQ && 0.0 < p[0] && p[NQ - 1] < 1.0
    requires forall i, j :: 0 <= i < j < NQ ==> p[i] < p[j]
    ensures Probabilities(p)
  {
    assert forall k :: 0 < k < NQ ==> p[0] < p[k];
    assert forall k :: 0 <= k < NQ - 1 ==> p[k] < p[NQ - 1];
  }

  lemma Mirror(p: seq<real>, k: nat)
    requires IsGrid(p) && k < NQ
    ensures p[NQ - 1 - k] == 1.0 - p[k]
  {
  }

  lemma GridEnds(p: seq<real>)
    requires IsGrid(p)
    ensures 0.0 < p[0] && p[NQ - 1] < 1.0
  {
  }

  // ---------------------------------------------------------------- the scale of the grid

  lemma {:induction false} GridPower(k: nat)
    requires k <= 85
    ensures GridAt(85 - k) == 0.1 * Pow(0.87191909, k)
  {
    if k > 0 {
      GridPower(k - 1);
    }
  }

  lemma {:induction false} PowSum(u: real, n: nat, k: nat)
    ensures Pow(u, n + k) == Pow(u, n) * Pow(u, k)
  {
    if n > 0 {
      PowSum(u, n - 1, k);
      MulAssociates(u, Pow(u, n - 1), Pow(u, k));
    }
  }

  lemma MulAssociates(x: real, y: real, z: real)
    ensures x * (y * z) == x * y * z
  {
  }

  lemma ProductBounds(x: real, y: real, p: real, a: real, b: real, c: real, d: real)
    requires 0.0 <= a <= x <= b && 0.0 <= c <= y <= d && p == x * y
    ensures a * c <= p <= b * d
  {
    MulLe(x, c, y, x * c, p);
    MulLe(c, a, x, a * c, x * c);
    MulLe(x, y, d, p, x * d);
    MulLe(d, x, b, x * d, b * d);
  }

  lemma PowDouble(n: nat, a: real, b: real)
    requires 0.0 <= a <= Pow(0.87191909, n) <= b
    ensures a * a <= Pow(0.87191909, n + n) <= b * b
  {
    var u := Pow(0.87191909, n);
    PowSum(0.87191909, n, n);
    ProductBounds(u, u, u * u, a, b, a, b);
  }

  lemma PowOne(u: real)
    ensures Pow(u, 1) == u
  {
    assert Pow(u, 0) == 1.0;
  }

  lemma EarlyPowers()
    requires 0.577969266249 <= Pow(0.87191909, 4) <= 0.577969266251
    ensures 0.111588382131 <= Pow(0.87191909, 16) <= 0.111588382134
  {
    hide Pow;
    PowDouble(4, 0.577969266249, 0.577969266251);
    PowDouble(8, 0.334048472728, 0.334048472731);
  }

  lemma PowerBounds()
    ensures 0.57796926 <= Pow(0.87191909, 4) <= 0.57796927
    ensures 0.11158838 <= Pow(0.87191909, 16) <= 0.11158839
    ensures 0.0001550514 <= Pow(0.87191909, 64) <= 0.0001550515
  {
    hide Pow;
    PowOne(0.87191909);
    PowDouble(1, 0.87191909, 0.87191909);
    PowDouble(2, 0.760242899506, 0.760242899507);
    EarlyPowers();
    PowDouble(16, 0.111588382131, 0.111588382134);
    PowDouble(32, 0.012451967026, 0.012451967028);
  }

  lemma GridBottom()
    ensures 0.000000999 < GridAt(1) < 0.000001001
  {
    hide GridAt, Pow;
    GridPower(84);
    PowerBounds();
    PowSum(0.87191909, 64, 16);
    PowSum(0.87191909, 80, 4);
    var x, y, z := Pow(0.87191909, 64), Pow(0.87191909, 16), Pow(0.87191909, 4);
    ProductBounds(x, y, x * y, 0.0001550514, 0.0001550515, 0.11158838, 0.11158839);
    ProductBounds(x * y, z, x * y * z, 0.0000173019, 0.0000173021, 0.57796926, 0.57796927);
  }

  /** The grid starts at one millionth (to a thousandth of it), and passes through 0.1, 0.5 and 0.9 in hundredths. */
  lemma GridScale()
    ensures 0.000000999 < GridAt(1) < 0.000001001
    ensures GridAt(85) == 0.1 && GridAt(125) == 0.5 && GridAt(165) == 0.9
    ensures forall k :: 85 <= k < 165 ==> GridAt(k + 1) == GridAt(k) + 0.01
  {
    GridBottom();
  }

  // ---------------------------------------------------------------- preparing a rewrite

  function LowEnd(n: nat, p1: real): real
    requires n > 0
  {
    Min(0.5 / n as real, 0.5 * p1)
  }

  function HighEnd(n: nat, p1: real): real
    requires n > 0
  {
    Max(1.0 - 0.5 / n as real, 0.5 * (1.0 + p1))
  }

  function WithEnds(s: seq<real>, first: real, last: real): seq<real>
    requires |s| == NQ
  {
    s[0 := first][NQ - 1 := last]
  }

  /** Sort a batch and set both end points of quantiles and probabilities for it. */
  function Prepared(qile: seq<real>, pval: seq<real>, data: seq<real>, nt: nat): (m: Merge)
    requires |qile| == |pval| == NQ && |data| > 0
    ensures m.Valid() && |m.qile| == NQ && |m.data| == |data|
  {
    SortSorts(data);
    var n, d := nt + |data|, Sort(data);
    Merge(WithEnds(qile, d[0], d[|d| - 1]), WithEnds(pval, LowEnd(n, pval[1]), HighEnd(n, pval[NQ - 2])), d, nt)
  }

  lemma PreparedIsGrid(qile: seq<real>, pval: seq<real>, data: seq<real>, nt: nat)
    requires |qile| == |pval| == NQ && |data| > 0 && IsGrid(pval)
    ensures IsGrid(Prepared(qile, pval, data, nt).pval)
  {
    EndsKeepGrid(pval, nt + |data|);
  }

  lemma EndsKeepGrid(pval: seq<real>, n: nat)
    requires n > 0 && IsGrid(pval)
    ensures IsGrid(WithEnds(pval, LowEnd(n, pval[1]), HighEnd(n, pval[NQ - 2])))
  {
    hide GridAt;
    QuotientPositive(0.5, n as real);
    Mirror(pval, 1);
    GridIncreases(pval, 0, 1);
  }

  /**
   * The lowest probability is half an observation of all, or half the next one if that is less, and
   * the highest is as far from one.
   */
  lemma EndProbabilities(qile: seq<real>, pval: seq<real>, data: seq<real>, nt: nat)
    requires |qile| == |pval| == NQ && |data| > 0
    ensures var p := Prepared(qile, pval, data, nt).pval;
            HalfOrLess(nt + |data|, p[0], pval[1]) && HalfOrLess(nt + |data|, 1.0 - p[NQ - 1], 1.0 - pval[NQ - 2])
  {
    LowEndIs(nt + |data|, pval[1]);
    HighEndIs(nt + |data|, pval[NQ - 2]);
    PreparedEnds(qile, pval, data, nt);
  }

  /** Half an observation of n, or half of p if that is less. */
  ghost predicate HalfOrLess(n: nat, x: real, p: real) {
    n as real * x <= 0.5 && 2.0 * x <= p && (n as real * x == 0.5 || 2.0 * x == p)
  }

  lemma LowEndIs(n: nat, p1: real)
    requires n > 0
    ensures HalfOrLess(n, LowEnd(n, p1), p1)
  {
    HalfOf(n as real, LowEnd(n, p1));
  }

  lemma HighEndIs(n: nat, p1: real)
    requires n > 0
    ensures HalfOrLess(n, 1.0 - HighEnd(n, p1), 1.0 - p1)
  {
    HalfOf(n as real, 1.0 - HighEnd(n, p1));
  }

  lemma PreparedEnds(qile: seq<real>, pval: seq<real>, data: seq<real>, nt: nat)
    requires |qile| == |pval| == NQ && |data| > 0
    ensures var p := Prepared(qile, pval, data, nt).pval;
            p[0] == LowEnd(nt + |data|, pval[1]) && p[NQ - 1] == HighEnd(nt + |data|, pval[NQ - 2])
  {
  }

  lemma HalfOf(n: real, x: real)
    requires n > 0.0
    ensures x <= 0.5 / n ==> n * x <= 0.5
    ensures x == 0.5 / n ==> n * x == 0.5
  {
    var h := 0.5 / n;
    assert h * n == 0.5;
    if x <= h {
      MulLe(n, x, h, n * x, 0.5);
    }
  }

  // ---------------------------------------------------------------- answering a query

  function LinInterp(x: real, x0: real, x1: real, p0: real, p1: real): real
    requires x0 != x1
  {
    p0 + (p1 - p0) * (x - x0) / (x1 - x0)
  }

  /** The cell of the grid that holds prob; the first or last one if none does. */
  predicate IsCell(p: seq<real>, prob: real, j: nat)
    requires |p| == NQ
  {
    && j <= NQ - 2
    && (p[j] < prob || j == 0)
    && (prob <= p[j + 1] || j == NQ - 2)
  }

  lemma CellUnique(p: seq<real>, prob: real, i: nat, j: nat)
    requires IsGrid(p) && IsCell(p, prob, i) && IsCell(p, prob, j)
    ensures i == j
  {
    if i < j {
      CellsDiffer(p, prob, i, j);
    } else if j < i {
      CellsDiffer(p, prob, j, i);
    }
  }

  lemma CellsDiffer(p: seq<real>, prob: real, i: nat, j: nat)
    requires IsGrid(p) && i < j < NQ - 1
    ensures !(IsCell(p, prob, i) && IsCell(p, prob, j))
  {
    if i + 1 < j {
      GridIncreases(p, i + 1, j);
    }
  }

  method FindCell(p: array<real>, prob: real) returns (j: nat)
    requires p.Length == NQ
    ensures IsCell(p[..], prob, j)
  {
    var jl, jh := 0, NQ - 1;
    while jh - jl > 1
      invariant 0 <= jl < jh <= NQ - 1
      invariant p[jl] < prob || jl == 0
      invariant prob <= p[jh] || jh == NQ - 1
    {
      j := (jh + jl) / 2;
      if prob > p[j] {
        jl := j;
      } else {
        jh := j;
      }
    }
    j := jl;
  }

  function EstimateAt(qile: seq<real>, pval: seq<real>, prob: real, j: nat): real
    requires |qile| == |pval| == NQ && j <= NQ - 2 && pval[j] != pval[j + 1]
  {
    Clamp(LinInterp(prob, pval[j], pval[j + 1], qile[j], qile[j + 1]), qile[0], qile[NQ - 1])
  }

  /** The answer never leaves the range of the batch just merged. */
  lemma AnswerInBatch(m: Merge, prob: real, j: nat)
    requires m.Valid() && |m.qile| == NQ && IsGrid(m.pval) && IsCell(m.pval, prob, j)
    ensures m.pval[j] != m.pval[j + 1]
    ensures m.Q0() <= EstimateAt(Rewritten(m), m.pval, prob, j) <= m.Qm()
  {
    hide NewQuantile, LinInterp, IsGrid, GridAt;
    GridIncreases(m.pval, j, j + 1);
    EndsOf(m);
    ClampInside(LinInterp(prob, m.pval[j], m.pval[j + 1], Rewritten(m)[j], Rewritten(m)[j + 1]), m.Q0(), m.Qm());
  }

  lemma PreparedNt(qile: seq<real>, pval: seq<real>, data: seq<real>, nt: nat)
    requires |qile| == |pval| == NQ && |data| > 0
    ensures Prepared(qile, pval, data, nt).nt == nt
  {
  }

  lemma StartAndEnds(m: Merge)
    requires m.Valid() && |m.qile| == NQ
    ensures CursorAt(m, 0) == Start(m)
    ensures NewQuantile(m, 0) == m.Q0() == m.qile[0] && NewQuantile(m, NQ - 1) == m.Qm() == m.qile[NQ - 1]
  {
  }

  lemma EndsOf(m: Merge)
    requires m.Valid() && |m.qile| == NQ
    ensures Rewritten(m)[0] == m.Q0() && Rewritten(m)[NQ - 1] == m.Qm() && m.Q0() <= m.Qm()
  {
  }

  lemma ClampInside(x: real, lo: real, hi: real)
    requires lo <= hi
    ensures lo <= Clamp(x, lo, hi) <= hi
  {
  }

  /** With quantiles in order, a probability inside the grid is answered inside its cell. */
  lemma AnswerInCell(qile: seq<real>, pval: seq<real>, prob: real, j: nat)
    requires |qile| == NQ && Sorted(qile) && IsGrid(pval)
    requires pval[0] < prob <= pval[NQ - 1] && IsCell(pval, prob, j)
    ensures pval[j] < prob <= pval[j + 1]
    ensures qile[j] <= EstimateAt(qile, pval, prob, j) <= qile[j + 1]
  {
    CellInterpolation(prob, pval[j], pval[j + 1], qile[j], qile[j + 1]);
    assert qile[0] <= qile[j] && qile[j + 1] <= qile[NQ - 1];
  }

  lemma CellInterpolation(x: real, x0: real, x1: real, p0: real, p1: real)
    requires x0 < x <= x1 && p0 <= p1
    ensures p0 <= LinInterp(x, x0, x1, p0, p1) <= p1
  {
    BetweenByFraction(p0, p1, x - x0, x1 - x0, LinInterp(x, x0, x1, p0, p1));
  }

  /** At the ends of its cell the answer is the quantile stored there, and in the middle half of both. */
  lemma AnswerAtGrid(qile: seq<real>, pval: seq<real>, j: nat)
    requires |qile| == |pval| == NQ && Sorted(qile) && IsGrid(pval) && j <= NQ - 2
    ensures pval[j] < pval[j + 1]
    ensures EstimateAt(qile, pval, pval[j], j) == qile[j]
    ensures EstimateAt(qile, pval, pval[j + 1], j) == qile[j + 1]
    ensures EstimateAt(qile, pval, 0.5 * (pval[j] + pval[j + 1]), j) == 0.5 * (qile[j] + qile[j + 1])
  {
    hide IsGrid, GridAt;
    GridIncreases(pval, j, j + 1);
    LineThrough(pval[j], pval[j + 1], qile[j], qile[j + 1]);
    assert qile[0] <= qile[j] <= qile[j + 1] <= qile[NQ - 1];
  }

  lemma LineThrough(x0: real, x1: real, p0: real, p1: real)
    requires x0 < x1
    ensures LinInterp(x0, x0, x1, p0, p1) == p0 && LinInterp(x1, x0, x1, p0, p1) == p1
    ensures LinInterp(0.5 * (x0 + x1), x0, x1, p0, p1) == 0.5 * (p0 + p1)
  {
    var w := x1 - x0;
    ScaledFraction(p1 - p0, 0.0, w, 0.0, 0.0);
    ScaledFraction(p1 - p0, w, w, 1.0, p1 - p0);
    ScaledFraction(p1 - p0, 0.5 * w, w, 0.5, 0.5 * (p1 - p0));
  }

  /**
   * With quantiles in order, and rising probabilities as those of a grid are, a higher probability
   * never gets a lower answer, in its cell or across cells.
   */
  lemma AnswerRises(qile: seq<real>, pval: seq<real>, prob: real, j: nat, prob': real, j': nat)
    requires |qile| == |pval| == NQ && Sorted(qile) && Increasing(pval) && prob <= prob'
    requires IsCell(pval, prob, j) && IsCell(pval, prob', j')
    ensures pval[j] != pval[j + 1] && pval[j'] != pval[j' + 1]
    ensures EstimateAt(qile, pval, prob, j) <= EstimateAt(qile, pval, prob', j')
  {
    hide LinInterp;
    assert pval[j] < pval[j + 1] && pval[j'] < pval[j' + 1];
    if j == j' {
      LineRises(prob, prob', pval[j], pval[j + 1], qile[j], qile[j + 1]);
    } else {
      CellsRise(pval, prob, j, prob', j');
      LineRises(prob, pval[j + 1], pval[j], pval[j + 1], qile[j], qile[j + 1]);
      LineThrough(pval[j], pval[j + 1], qile[j], qile[j + 1]);
      LineRises(pval[j'], prob', pval[j'], pval[j' + 1], qile[j'], qile[j' + 1]);
      LineThrough(pval[j'], pval[j' + 1], qile[j'], qile[j' + 1]);
      assert qile[j + 1] <= qile[j'];
    }
  }

  lemma CellsRise(p: seq<real>, prob: real, j: nat, prob': real, j': nat)
    requires |p| == NQ && Increasing(p) && prob <= prob' && IsCell(p, prob, j) && IsCell(p, prob', j') && j != j'
    ensures j < j' && prob <= p[j + 1] && p[j'] < prob'
  {
  }

  lemma LineRises(x: real, y: real, x0: real, x1: real, p0: real, p1: real)
    requires x <= y && x0 < x1 && p0 <= p1
    ensures LinInterp(x, x0, x1, p0, p1) <= LinInterp(y, x0, x1, p0, p1)
  {
    var d, w := p1 - p0, x1 - x0;
    var a, b := d * (x - x0), d * (y - x0);
    MulLe(d, x - x0, y - x0, a, b);
    var fa, fb := a / w, b / w;
    assert fa * w == a && fb * w == b;
    if fb < fa {
      MulLt(w, fb, fa, b, a);
    }
  }

  // ---------------------------------------------------------------- the agent

  class ChambersEstimator {
    const prob: real
    const qile: array<real>
    const pval: array<real>
    var nt: nat
    var data: seq<real>
    var quant: Number
    var init: bool

    ghost predicate Valid()
      reads this, qile, pval
    {
      && qile != pval && qile.Length == NQ && pval.Length == NQ
      && (!init ==> IsGrid(pval[..]))
    }

    constructor (prob: real)
      ensures Valid() && init && nt == 0 && data == [] && quant == NaN && this.prob == prob
      ensures forall k :: 0 <= k < NQ ==> qile[k] == 0.0
      ensures fresh(qile) && fresh(pval)
    {
      this.prob := prob;
      qile := new real[NQ](_ => 0.0);
      pval := new real[NQ](_ => 0.0);
      nt, data, quant, init := 0, [], NaN, true;
    }

    method Collect(batch: seq<real>)
      requires Valid()
      modifies this`data
      ensures Valid() && data == old(data) + batch
    {
      for i := 0 to |batch|
        invariant data == old(data) + batch[..i]
      {
        data := data + [batch[i]];
      }
    }

    method InitGrid()
      requires Valid()
      modifies pval
      ensures pval[..] == InitialGrid()
    {
      hide GridAt;
      var j := 85;
      while j <= 165
        invariant 85 <= j <= 166
        invariant forall k :: 85 <= k < j ==> pval[k] == GridAt(k)
      {
        GridMiddle(j);
        pval[j] := (j - 75) as real / 100.0;
        j := j + 1;
      }
      j := 85;
      while j > 0
        invariant 0 <= j <= 85
        invariant forall k :: j <= k <= 250 - j ==> pval[k] == GridAt(k)
      {
        GridBelow(j - 1);
        pval[j - 1] := 0.87191909 * pval[j];
        pval[250 - j + 1] := 1.0 - pval[j - 1];
        j := j - 1;
      }
    }

    /** Sort the buffer and set the end points of quantiles and probabilities. */
    method SetEnds()
      requires Valid() && !init && |data| > 0
      modifies this`data, qile, pval
      ensures var m := Prepared(old(qile[..]), old(pval[..]), old(data), nt);
              qile[..] == m.qile && pval[..] == m.pval && data == m.data
    {
      var nq, nd := qile.Length, |data|;
      SortSorts(data);
      data := Sort(data);
      qile[0] := data[0];
      qile[nq - 1] := data[nd - 1];
      pval[0] := Min(0.5 / (nt + nd) as real, 0.5 * pval[1]);
      pval[nq - 1] := Max(1.0 - 0.5 / (nt + nd) as real, 0.5 * (1.0 + pval[nq - 2]));
    }

    ghost predicate Holds(m: Merge)
      reads this, qile, pval
    {
      m.Valid() && qile[..] == m.qile && pval[..] == m.pval && data == m.data && nt == m.nt
    }

    /** The rank reached when the next datum is met. */
    method RankAtDatum(ghost m: Merge, jd: nat, jq: nat, told: real, qold: real) returns (tnew: real)
      requires Holds(m) && InBounds(m, Cursor(jd, jq, told, told, qold, qold)) && jd < |data|
      ensures tnew == RankBefore(m, Cursor(jd, jq, told, told, qold, qold))
    {
      assert qile[jq] == m.qile[jq] && qile[jq - 1] == m.qile[jq - 1];
      assert pval[jq] == m.pval[jq] && pval[jq - 1] == m.pval[jq - 1];
      tnew := told;
      if qile[jq] > qile[jq - 1] {
        tnew := tnew + ShareBetween(nt, pval[jq - 1], pval[jq], qile[jq - 1], qile[jq], qold, data[jd]);
      }
    }

    /** The inner loop: locate the value at which the target rank is crossed. */
    method Locate(ghost m: Merge, target: real, jd0: nat, jq0: nat, q: real)
      returns (jd: nat, jq: nat, told: real, tnew: real, qold: real, qnew: real)
      requires Holds(m) && InBounds(m, Cursor(jd0, jq0, 0.0, 0.0, q, q))
      ensures Cursor(jd, jq, told, tnew, qold, qnew) == Advance(m, target, Cursor(jd0, jq0, 0.0, 0.0, q, q))
    {
      hide Sorted, Advance, RankBefore;
      var nq, nd := qile.Length, |data|;
      ghost var start := Cursor(jd0, jq0, 0.0, 0.0, q, q);
      jd, jq, told, tnew, qold, qnew := jd0, jq0, 0.0, 0.0, q, q;
      while true
        invariant InBounds(m, Cursor(jd, jq, told, tnew, qold, qnew))
        invariant told == tnew && qold == qnew
        invariant Advance(m, target, Cursor(jd, jq, told, tnew, qold, qnew)) == Advance(m, target, start)
        decreases nq - jq + nd - jd
      {
        ghost var c := Cursor(jd, jq, told, tnew, qold, qnew);
        ghost var e := Answer(c);
        if jq < nq || jd < nd {
          AdvanceStep(m, target, c);
          e := ReadNext(m, target, c);
        }
        if jq < nq && (jd >= nd || qile[jq] < data[jd]) {
          // next in order: a stored quantile
          assert qile[jq] == m.qile[jq] && pval[jq] == m.pval[jq];
          qnew := qile[jq];
          tnew := jd as real + ShareAt(nt, pval[jq]);
          assert e == ReadQuantile(m, target, c, tnew);
          jq := jq + 1;
          if tnew >= target {
            assert e == Answer(Cursor(jd, jq, told, tnew, qold, qnew));
            break;
          }
        } else if jd < nd {
          // next in order: a datum
          qnew := data[jd];
          tnew := RankAtDatum(m, jd, jq, told, qold);
          assert e == ReadDatum(m, target, c, tnew);
          jd := jd + 1;
          if tnew >= target {
            assert e == Answer(Cursor(jd, jq, told, tnew, qold, qnew));
            break;
          }
          told := tnew;
          tnew := tnew + 1.0;
          qold := qnew;
          if tnew >= target {
            assert e == Answer(Cursor(jd, jq, told, tnew, qold, qnew));
            break;
          }
        } else {
          NothingLeft(m, target, c);
          break;
        }
        told := tnew;
        qold := qnew;
        assert e == Continue(Cursor(jd, jq, told, tnew, qold, qnew));
      }
    }

    /** One turn of the outer loop: the answer to target iq, and where the cursors stop. */
    method AnswerTarget(ghost m: Merge, iq: nat, jd0: nat, jq0: nat, q: real)
      returns (jd: nat, jq: nat, qnew: real, quantile: real)
      requires Holds(m) && 1 <= iq < NQ - 1 && qile.Length == pval.Length == NQ
      requires var c := CursorAt(m, iq - 1); jd0 == c.jd && jq0 == c.jq && q == c.qnew
      ensures var r := CursorAt(m, iq); jd == r.jd && jq == r.jq && qnew == r.qnew
      ensures quantile == NewQuantile(m, iq)
    {
      assert pval[iq] == m.pval[iq];
      var target := ShareAt(nt + |data|, pval[iq]);
      var told, tnew, qold := 0.0, 0.0, q;
      jd, jq, qnew := jd0, jq0, q;
      if tnew < target {
        jd, jq, told, tnew, qold, qnew := Locate(m, target, jd, jq, qnew);
      }
      assert Cursor(jd, jq, told, tnew, qold, qnew) == CursorAt(m, iq);
      quantile := Interpolation(qold, qnew, told, tnew, target);
    }

    /** Merge the buffered data into the stored quantiles. */
    method Update()
      requires Valid() && !init && |data| > 0
      modifies this`data, qile, pval
      ensures Valid()
      ensures var m := Prepared(old(qile[..]), old(pval[..]), old(data), nt);
              qile[..] == Rewritten(m) && pval[..] == m.pval && data == m.data
    {
      hide Prepared, CursorAt, NewQuantile, IsGrid;
      ghost var m := Prepared(qile[..], pval[..], data, nt);
      PreparedIsGrid(qile[..], pval[..], data, nt);
      SetEnds();
      assert Holds(m) by { PreparedNt(old(qile[..]), old(pval[..]), old(data), nt); }
      var newqile := new real[qile.Length];
      newqile[0], newqile[qile.Length - 1] := qile[0], qile[qile.Length - 1];
      var jd, jq, q := 0, 1, qile[0];
      StartAndEnds(m);

      for iq := 1 to qile.Length - 1
        invariant Holds(m)
        invariant newqile[NQ - 1] == m.Qm()
        invariant forall i :: 0 <= i < iq ==> newqile[i] == NewQuantile(m, i)
        invariant var c := CursorAt(m, iq - 1); jd == c.jd && jq == c.jq && q == c.qnew
      {
        jd, jq, q, newqile[iq] := AnswerTarget(m, iq, jd, jq, q);
      }
      assert newqile[..] == Rewritten(m);
      Assign(newqile);
    }

    /** The assignment of one vector to another. */
    method Assign(newqile: array<real>)
      requires newqile != qile && newqile.Length == qile.Length
      modifies qile
      ensures qile[..] == newqile[..]
    {
      forall i | 0 <= i < qile.Length {
        qile[i] := newqile[i];
      }
    }

    /** The first estimate after a reset starts from the initial grid. */
    method EnsureGrid()
      requires Valid()
      modifies this`init, pval
      ensures Valid() && !init
      ensures pval[..] == if old(init) then InitialGrid() else old(pval[..])
    {
      if init {
        InitGrid();
        InitialIsGrid();
        init := false;
      }
    }

    /** Binary search for the cell j of prob, and interpolation in it. */
    method Query() returns (q: real, j: nat)
      requires Valid() && !init
      ensures IsCell(pval[..], prob, j) && pval[j] != pval[j + 1]
      ensures q == EstimateAt(qile[..], pval[..], prob, j)
    {
      j := FindCell(pval, prob);
      GridIncreases(pval[..], j, j + 1);
      var x := LinInterp(prob, pval[j], pval[j + 1], qile[j], qile[j + 1]);
      q := Clamp(x, qile[0], qile[NQ - 1]);
      assert q == EstimateAt(qile[..], pval[..], prob, j);
    }

    method Estimate() returns (q: Number)
      requires Valid()
      modifies this`data, this`nt, this`quant, this`init, qile, pval
      ensures Valid() && q == quant && data == []
      ensures old(data) == [] ==>
                quant == old(quant) && nt == old(nt) && init == old(init)
                && qile[..] == old(qile[..]) && pval[..] == old(pval[..])
      ensures old(data) != [] ==>
                var grid := if old(init) then InitialGrid() else old(pval[..]);
                var m := Prepared(old(qile[..]), grid, old(data), old(nt));
                && !init && nt == old(nt) + |old(data)|
                && pval[..] == m.pval && qile[..] == Rewritten(m)
                && exists j: nat :: IsCell(m.pval, prob, j) && m.pval[j] != m.pval[j + 1]
                               && quant == Value(EstimateAt(Rewritten(m), m.pval, prob, j))
    {
      if |data| > 0 {
        EnsureGrid();
        Update();
        var x, j := Query();
        nt := nt + |data|;
        data := [];
        quant := Value(x);
      }
      q := quant;
    }

    method Reset()
      requires Valid()
      modifies this`data, this`nt, this`quant, this`init
      ensures Valid() && init && nt == 0 && data == [] && quant == NaN
    {
      init := true;
      data := [];
      quant := NaN;
      // Resizing to the present size keeps the stored quantiles and probabilities.
      nt := 0;
    }
  }
}
