/**
 * The merge at the heart of the incremental quantile agent (Chambers et al., 2006): stored
 * quantiles and a sorted batch of data are scanned with two cursors, and each target rank is
 * answered by interpolation.
 *
 * As in the source, the running ranks `told` and `tnew` start again from zero for every target,
 * while the cursors and the abscissas `qold` and `qnew` carry over.
 */
module QuantileMerge {
  import opened Reals
  import opened Sorting

  /** Observations, out of nt, at or below a quantile of probability p. */
  function ShareAt(nt: nat, p: real): real {
    nt as real * p
  }

  /** Observations between x and y when nt of them spread with slope (p1 - p0) / (q1 - q0). */
  function ShareBetween(nt: nat, p0: real, p1: real, q0: real, q1: real, x: real, y: real): real
    requires q0 < q1
  {
    nt as real * (p1 - p0) * (y - x) / (q1 - q0)
  }

  /** What one rewrite works on: quantiles and probabilities with their end points set, sorted data. */
  datatype Merge = Merge(qile: seq<real>, pval: seq<real>, data: seq<real>, nt: nat) {

    ghost predicate Valid() {
      && |qile| == |pval| >= 2
      && |data| > 0 && Sorted(data)
      && qile[0] == data[0] && qile[|qile| - 1] == data[|data| - 1]
    }

    function Q0(): real
      requires |data| > 0
    {
      data[0]
    }

    function Qm(): real
      requires |data| > 0
    {
      data[|data| - 1]
    }

    function Target(iq: nat): real
      requires iq < |pval|
    {
      ShareAt(nt + |data|, pval[iq])
    }

    /** The number of old observations at or below the jq-th stored quantile. */
    function OldShare(jq: nat): real
      requires jq < |pval|
    {
      ShareAt(nt, pval[jq])
    }

    /** The old observations between x and y, within the jq-th stored interval. */
    function Portion(jq: nat, x: real, y: real): real
      requires 0 < jq < |qile| == |pval| && qile[jq - 1] < qile[jq]
    {
      ShareBetween(nt, pval[jq - 1], pval[jq], qile[jq - 1], qile[jq], x, y)
    }
  }

  datatype Cursor = Cursor(jd: nat, jq: nat, told: real, tnew: real, qold: real, qnew: real)

  ghost predicate InBounds(m: Merge, c: Cursor) {
    && c.jd <= |m.data| && 1 <= c.jq <= |m.qile|
    && (c.jq == |m.qile| ==> c.jd == |m.data|)
  }

  predicate QuantileIsNext(m: Merge, c: Cursor) {
    c.jq < |m.qile| && (c.jd >= |m.data| || m.qile[c.jq] < m.data[c.jd])
  }

  /** Reading one value either answers the target or leaves more to read. */
  datatype Event = Answer(c: Cursor) | Continue(c: Cursor)

  /** A slope discontinuity, from the old distribution. */
  function ReadQuantile(m: Merge, target: real, c: Cursor, tnew: real): Event
    requires c.jq < |m.qile|
  {
    var x := m.qile[c.jq];
    if tnew >= target then Answer(Cursor(c.jd, c.jq + 1, c.told, tnew, c.qold, x))
    else Continue(Cursor(c.jd, c.jq + 1, tnew, tnew, x, x))
  }

  /** A value discontinuity, from the batch: the rank runs up to t before the datum is counted. */
  function ReadDatum(m: Merge, target: real, c: Cursor, t: real): Event
    requires c.jd < |m.data|
  {
    var x := m.data[c.jd];
    if t >= target then Answer(Cursor(c.jd + 1, c.jq, c.told, t, c.qold, x))
    else if t + 1.0 >= target then Answer(Cursor(c.jd + 1, c.jq, t, t + 1.0, x, x))
    else Continue(Cursor(c.jd + 1, c.jq, t + 1.0, t + 1.0, x, x))
  }

  /** Rank reached at the next datum, before it is counted. */
  function RankBefore(m: Merge, c: Cursor): real
    requires m.Valid() && InBounds(m, c) && c.jd < |m.data|
  {
    if m.qile[c.jq - 1] < m.qile[c.jq] then c.told + m.Portion(c.jq, c.qold, m.data[c.jd]) else c.told
  }

  function ReadNext(m: Merge, target: real, c: Cursor): (e: Event)
    requires m.Valid() && InBounds(m, c) && (c.jq < |m.qile| || c.jd < |m.data|)
    ensures InBounds(m, e.c) && c.jd <= e.c.jd && c.jq <= e.c.jq && c.jd + c.jq < e.c.jd + e.c.jq
  {
    if QuantileIsNext(m, c) then ReadQuantile(m, target, c, c.jd as real + m.OldShare(c.jq))
    else ReadDatum(m, target, c, RankBefore(m, c))
  }

  /**
   * Read stored quantiles and data in order until the target rank is reached or nothing is left.
   * The quantile cursor gets to the end only after the data cursor has.
   */
  function Advance(m: Merge, target: real, c: Cursor): (r: Cursor)
    requires m.Valid() && InBounds(m, c)
    ensures InBounds(m, r) && c.jd <= r.jd && c.jq <= r.jq
    decreases |m.qile| - c.jq + |m.data| - c.jd
  {
    if c.jq == |m.qile| && c.jd == |m.data| then c
    else
      match ReadNext(m, target, c)
      case Answer(r) => r
      case Continue(c') => Advance(m, target, c')
  }

  lemma AdvanceStep(m: Merge, target: real, c: Cursor)
    requires m.Valid() && InBounds(m, c) && (c.jq < |m.qile| || c.jd < |m.data|)
    ensures var e := ReadNext(m, target, c);
            Advance(m, target, c) == if e.Answer? then e.c else Advance(m, target, e.c)
  {
  }

  function Start(m: Merge): Cursor
    requires m.Valid()
  {
    Cursor(0, 1, 0.0, 0.0, m.Q0(), m.Q0())
  }

  /** Answer one target from where the previous one stopped. */
  function Seek(m: Merge, target: real, c: Cursor): (r: Cursor)
    requires m.Valid() && InBounds(m, c)
    ensures InBounds(m, r) && c.jd <= r.jd && c.jq <= r.jq
  {
    var start := Cursor(c.jd, c.jq, 0.0, 0.0, c.qnew, c.qnew);
    if 0.0 < target then Advance(m, target, start) else start
  }

  function CursorAt(m: Merge, iq: nat): (r: Cursor)
    requires m.Valid() && iq < |m.qile|
    ensures InBounds(m, r)
  {
    if iq == 0 then Start(m) else Seek(m, m.Target(iq), CursorAt(m, iq - 1))
  }

  function Interpolation(qold: real, qnew: real, told: real, tnew: real, target: real): real {
    if tnew == told then 0.5 * (qold + qnew)
    else qold + (qnew - qold) * (target - told) / (tnew - told)
  }

  function Interpolate(c: Cursor, target: real): real {
    Interpolation(c.qold, c.qnew, c.told, c.tnew, target)
  }

  function NewQuantile(m: Merge, iq: nat): real
    requires m.Valid() && iq < |m.qile|
  {
    if iq == 0 then m.Q0()
    else if iq == |m.qile| - 1 then m.Qm()
    else Interpolate(CursorAt(m, iq), m.Target(iq))
  }

  function Rewritten(m: Merge): (r: seq<real>)
    requires m.Valid()
    ensures |r| == |m.qile| && forall iq :: 0 <= iq < |r| ==> r[iq] == NewQuantile(m, iq)
  {
    seq(|m.qile|, iq requires 0 <= iq < |m.qile| => NewQuantile(m, iq))
  }

  // ---------------------------------------------------------------- one target

  /** Where a target was answered: strictly above rank told, at most at rank tnew, or nothing left. */
  ghost predicate Bracketed(c: Cursor, target: real) {
    c.qold <= c.qnew && (c.told < target <= c.tnew || (c.told == c.tnew && c.qold == c.qnew))
  }

  lemma InterpolateBetween(c: Cursor, target: real)
    requires Bracketed(c, target)
    ensures c.qold <= Interpolate(c, target) <= c.qnew
  {
    if c.tnew != c.told {
      BetweenByFraction(c.qold, c.qnew, target - c.told, c.tnew - c.told, Interpolate(c, target));
    }
  }

  ghost predicate Probabilities(p: seq<real>) {
    && (forall i :: 0 <= i < |p| ==> 0.0 < p[i] < 1.0)
    && (forall i, j :: 0 <= i < j < |p| ==> p[i] < p[j])
  }

  lemma ShareRises(m: Merge, i: nat, j: nat)
    requires m.Valid() && Probabilities(m.pval) && i <= j < |m.pval|
    ensures m.OldShare(i) <= m.OldShare(j)
  {
    if i < j {
      MulLe(m.nt as real, m.pval[i], m.pval[j], m.OldShare(i), m.OldShare(j));
    }
  }

  lemma PortionPositive(m: Merge, jq: nat, x: real, y: real)
    requires m.Valid() && Probabilities(m.pval) && 0 < jq < |m.qile| && m.qile[jq - 1] < m.qile[jq]
    requires m.nt > 0 && x < y
    ensures m.Portion(jq, x, y) > 0.0
  {
    var a := m.nt as real * (m.pval[jq] - m.pval[jq - 1]);
    MulLt(m.nt as real, 0.0, m.pval[jq] - m.pval[jq - 1], 0.0, a);
    var b, d := a * (y - x), m.qile[jq] - m.qile[jq - 1];
    MulLt(a, 0.0, y - x, 0.0, b);
    QuotientPositive(b, d);
  }

  lemma TargetPositive(m: Merge, iq: nat)
    requires m.Valid() && Probabilities(m.pval) && iq < |m.pval|
    ensures 0.0 < m.Target(iq)
  {
    MulLt((m.nt + |m.data|) as real, 0.0, m.pval[iq], 0.0, m.Target(iq));
  }

  lemma TargetAboveShare(m: Merge, iq: nat)
    requires m.Valid() && Probabilities(m.pval) && iq < |m.pval|
    ensures m.OldShare(iq) < m.Target(iq)
  {
    var p := m.pval[iq];
    MulLt(p, m.nt as real, (m.nt + |m.data|) as real, m.OldShare(iq), m.Target(iq));
  }

  lemma NoShare(m: Merge, jq: nat)
    requires m.Valid() && m.nt == 0 && jq < |m.pval|
    ensures m.OldShare(jq) == 0.0
  {
  }

  lemma NothingOld(m: Merge)
    requires m.Valid() && m.nt == 0
    ensures forall j :: 0 <= j < |m.pval| ==> m.OldShare(j) == 0.0
    ensures forall j, x, y :: 0 < j < |m.qile| && m.qile[j - 1] < m.qile[j] ==> m.Portion(j, x, y) == 0.0
  {
    forall j, x: real, y: real | 0 < j < |m.qile| && m.qile[j - 1] < m.qile[j]
      ensures m.Portion(j, x, y) == 0.0
    {
      ZeroShare(m.pval[j] - m.pval[j - 1], y - x, m.qile[j] - m.qile[j - 1]);
    }
  }

  lemma ZeroShare(p: real, d: real, w: real)
    requires w != 0.0
    ensures 0.0 * p * d / w == 0.0
  {
    assert 0.0 * p == 0.0;
  }
}
