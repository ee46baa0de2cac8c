/**
 * What the merge computes when nothing was observed before: on the first batch, and on the first
 * one after a reset.
 *
 * Because the running rank starts again from zero for every target, the k-th target consumes
 * ceil(n * p_k) data of its own instead of sharing those already counted.  The k-th quantile is
 * therefore not the data's k-th quantile, and all quantiles past a fixed index are the maximum.
 */
module FirstBatch {
  import opened Reals
  import opened Sorting
  import opened QuantileMerge

  ghost predicate Unobserved(m: Merge) {
    m.Valid() && m.nt == 0 && |m.qile| >= 3 && Probabilities(m.pval)
  }

  /** The stored quantiles lie below the batch (zeros, for positive data). */
  ghost predicate IsFirst(m: Merge) {
    Unobserved(m) && forall j :: 1 <= j < |m.qile| - 1 ==> m.qile[j] < m.Q0()
  }

  /** The data that a probability asks for: its nearest rank in the batch. */
  function Ask(m: Merge, iq: nat): int
    requires iq < |m.pval|
  {
    Ceil(|m.data| as real * m.pval[iq])
  }

  /** The data that targets 1..iq ask for, each on its own. */
  function Demand(m: Merge, iq: nat): int
    requires iq < |m.pval|
  {
    if iq == 0 then 0 else Demand(m, iq - 1) + Ask(m, iq)
  }

  lemma CeilProperty(x: real)
    ensures Ceil(x) as real - 1.0 < x <= Ceil(x) as real
  {
  }

  lemma TargetRange(m: Merge, iq: nat)
    requires Unobserved(m) && iq < |m.pval|
    ensures 0.0 < m.Target(iq) <= |m.data| as real
    ensures 1 <= Ask(m, iq) == Ceil(m.Target(iq)) <= |m.data|
  {
    TargetPositive(m, iq);
    var n := |m.data| as real;
    MulLe(n, m.pval[iq], 1.0, m.Target(iq), n);
    CeilProperty(m.Target(iq));
  }

  lemma {:induction false} DemandGrows(m: Merge, iq: nat)
    requires Unobserved(m) && iq < |m.pval|
    ensures iq <= Demand(m, iq)
  {
    if iq > 0 {
      DemandGrows(m, iq - 1);
      TargetRange(m, iq);
    }
  }

  lemma {:induction false} DemandRises(m: Merge, i: nat, j: nat)
    requires Unobserved(m) && i <= j < |m.pval|
    ensures Demand(m, i) <= Demand(m, j)
  {
    if i < j {
      DemandRises(m, i, j - 1);
      TargetRange(m, j);
    }
  }

  // ---------------------------------------------------------------- scanning from rank jd

  /** The running rank is the number of data read so far, as it is for the first target. */
  ghost predicate RankIsCount(m: Merge, target: real, c: Cursor) {
    && Unobserved(m) && InBounds(m, c) && 0.0 < target <= |m.data| as real
    && c.told == c.tnew == c.jd as real < target && c.qold == c.qnew
  }

  /** Then the target is answered by the datum it asks for, whatever quantiles come in between. */
  lemma {:induction false} CountFromRank(m: Merge, target: real, c: Cursor)
    requires RankIsCount(m, target, c)
    ensures var r, k := Advance(m, target, c), Ceil(target);
            && 1 <= k <= |m.data| && r.jd == k && c.jq <= r.jq < |m.qile|
            && r.qold == r.qnew == m.data[k - 1] && r.told < target <= r.tnew
            && (forall i :: c.jq <= i < r.jq ==> m.qile[i] < m.data[k - 1])
            && m.data[k - 1] <= m.qile[r.jq]
    decreases |m.qile| - c.jq + |m.data| - c.jd
  {
    CeilProperty(target);
    NothingOld(m);
    if QuantileIsNext(m, c) {
      var x := m.qile[c.jq];
      assert x < m.data[c.jd];
      assert ReadNext(m, target, c) == ReadQuantile(m, target, c, c.jd as real);
      CountFromRank(m, target, Cursor(c.jd, c.jq + 1, c.told, c.tnew, x, x));
    } else {
      assert RankBefore(m, c) == c.told;
      var e := ReadDatum(m, target, c, c.told);
      assert ReadNext(m, target, c) == e;
      if e.Continue? {
        CountFromRank(m, target, e.c);
      }
    }
  }

  /** The first target is answered by the datum it asks for, above the quantiles passed so far. */
  lemma FirstCursor(m: Merge)
    requires Unobserved(m)
    ensures 1 <= Demand(m, 1) <= |m.data|
    ensures var r := CursorAt(m, 1);
            && r.jd == Demand(m, 1) && r.qold == r.qnew == m.data[r.jd - 1] && Bracketed(r, m.Target(1))
            && 1 <= r.jq < |m.qile| && m.qile[r.jq] >= m.data[r.jd - 1]
            && forall i :: 1 <= i < r.jq ==> m.qile[i] < m.data[r.jd - 1]
  {
    TargetRange(m, 1);
    assert CursorAt(m, 0) == Start(m);
    assert CursorAt(m, 1) == Advance(m, m.Target(1), Start(m));
    CountFromRank(m, m.Target(1), Start(m));
    assert Demand(m, 0) == 0;
  }

  // ---------------------------------------------------------------- scanning from rank zero

  /** The scan has counted cnt data for its target, and meets no quantile before datum number top. */
  ghost predicate Counting(m: Merge, target: real, c: Cursor, cnt: nat, top: nat) {
    && Unobserved(m) && InBounds(m, c) && c.jq < |m.qile| && target <= |m.data| as real
    && c.told == c.tnew == cnt as real < target && c.qold == c.qnew
    && cnt <= c.jd <= top <= |m.data|
    && (c.jd < top ==> m.data[top - 1] <= m.qile[c.jq])
  }

  function CursorUpTo(m: Merge, c: Cursor, cnt: nat, top: nat): Cursor
    requires c.jd <= top <= |m.data|
  {
    var x := if c.jd == top then c.qnew else m.data[top - 1];
    var rank := (cnt + top - c.jd) as real;
    Cursor(top, c.jq, rank, rank, x, x)
  }

  /** One datum more: it answers the target if the target asks for one more, and is counted otherwise. */
  lemma CountOne(m: Merge, target: real, c: Cursor, cnt: nat, top: nat)
    requires Counting(m, target, c, cnt, top) && c.jd < top
    ensures var x, d, d' := m.data[c.jd], cnt as real, (cnt + 1) as real;
            && Ceil(target) > cnt
            && ReadNext(m, target, c) == if Ceil(target) == cnt + 1 then Answer(Cursor(c.jd + 1, c.jq, d, d', x, x))
                                         else Continue(Cursor(c.jd + 1, c.jq, d', d', x, x))
    ensures Ceil(target) > cnt + 1 ==> Counting(m, target, ReadNext(m, target, c).c, cnt + 1, top)
    ensures Ceil(target) == cnt + 1 ==> (cnt as real) < target <= (cnt + 1) as real
  {
    CeilProperty(target);
    NothingOld(m);
    assert !QuantileIsNext(m, c);
    assert RankBefore(m, c) == cnt as real;
  }

  lemma {:induction false} CountData(m: Merge, target: real, c: Cursor, cnt: nat, top: nat)
    requires Counting(m, target, c, cnt, top)
    ensures var r, jd := Advance(m, target, c), c.jd + Ceil(target) - cnt;
            if jd <= top then
              && 0 < jd && r.jd == jd && r.jq == c.jq && r.qold == r.qnew == m.data[jd - 1] && Bracketed(r, target)
            else
              && ((cnt + top - c.jd) as real) < target
              && r == Advance(m, target, CursorUpTo(m, c, cnt, top))
    decreases top - c.jd
  {
    hide Advance, ReadNext, Probabilities, Sorted;
    if c.jd < top {
      CountOne(m, target, c, cnt, top);
      AdvanceStep(m, target, c);
      if Ceil(target) > cnt + 1 {
        var c' := ReadNext(m, target, c).c;
        CountData(m, target, c', cnt + 1, top);
        assert CursorUpTo(m, c', cnt + 1, top) == CursorUpTo(m, c, cnt, top);
      }
    } else {
      CeilProperty(target);
      assert CursorUpTo(m, c, cnt, top) == c;
    }
  }

  /** With all data read, the next quantile answers whatever target is left. */
  lemma ReadPastData(m: Merge, target: real, c: Cursor)
    requires Unobserved(m) && InBounds(m, c) && target <= |m.data| as real
    requires c.jd == |m.data| && c.jq < |m.qile|
    ensures Advance(m, target, c) == Cursor(c.jd, c.jq + 1, c.told, c.jd as real, c.qold, m.qile[c.jq])
  {
    NothingOld(m);
    assert m.OldShare(c.jq) == 0.0;
    assert ReadNext(m, target, c) == ReadQuantile(m, target, c, c.jd as real);
  }

  lemma NothingLeft(m: Merge, target: real, c: Cursor)
    requires m.Valid() && InBounds(m, c) && c.jq == |m.qile|
    ensures Advance(m, target, c) == c
  {
  }

  // ---------------------------------------------------------------- the quantiles of the first batch

  /** The cursor after target iq, when no quantile was in the way: its data, or all there are. */
  ghost predicate Consumed(m: Merge, iq: nat, r: Cursor)
    requires IsFirst(m) && 1 <= iq < |m.pval|
  {
    && r.qold == r.qnew && Bracketed(r, m.Target(iq))
    && (Demand(m, iq) <= |m.data| ==> Demand(m, iq) > 0 && r.jd == Demand(m, iq) && r.jq == |m.qile| - 1
                                      && r.qnew == m.data[r.jd - 1])
    && (Demand(m, iq) > |m.data| ==> r.jd == |m.data| && r.qnew == m.Qm() && r.jq >= |m.qile| - 1)
  }

  lemma NextCursor(m: Merge, iq: nat)
    requires IsFirst(m) && 1 < iq < |m.pval|
    requires Consumed(m, iq - 1, CursorAt(m, iq - 1))
    ensures Consumed(m, iq, CursorAt(m, iq))
  {
    hide Probabilities, Sorted, Advance, ReadNext;
    var target, p := m.Target(iq), CursorAt(m, iq - 1);
    TargetRange(m, iq);
    DemandGrows(m, iq - 1);
    var c := Cursor(p.jd, p.jq, 0.0, 0.0, p.qnew, p.qnew);
    if p.jq < |m.qile| {
      CountData(m, target, c, 0, |m.data|);
      if c.jd + Ask(m, iq) > |m.data| {
        ReadPastData(m, target, CursorUpTo(m, c, 0, |m.data|));
      }
    } else {
      NothingLeft(m, target, c);
    }
  }

  lemma {:induction false} CursorConsumed(m: Merge, iq: nat)
    requires IsFirst(m) && 1 <= iq < |m.pval|
    ensures Consumed(m, iq, CursorAt(m, iq))
  {
    if iq == 1 {
      FirstCursor(m);
    } else {
      CursorConsumed(m, iq - 1);
      NextCursor(m, iq);
    }
  }

  /** The datum that answers target iq on a first batch. */
  function FirstIndex(m: Merge, iq: nat): (k: int)
    requires iq < |m.pval|
    ensures k <= |m.data| - 1
  {
    (if Demand(m, iq) <= |m.data| then Demand(m, iq) else |m.data|) - 1
  }

  lemma FirstIndexRange(m: Merge, iq: nat)
    requires Unobserved(m) && 1 <= iq < |m.pval|
    ensures 0 <= FirstIndex(m, iq) < |m.data|
  {
    DemandGrows(m, iq);
  }

  /** Every quantile that the first batch produces, exactly. */
  lemma FirstQuantiles(m: Merge, iq: nat)
    requires IsFirst(m) && 1 <= iq < |m.qile| - 1
    ensures 0 <= FirstIndex(m, iq) && Rewritten(m)[iq] == m.data[FirstIndex(m, iq)]
  {
    CursorConsumed(m, iq);
    FirstIndexRange(m, iq);
    InterpolateBetween(CursorAt(m, iq), m.Target(iq));
  }

  lemma AskRises(m: Merge, i: nat, j: nat)
    requires Unobserved(m) && i < j < |m.pval|
    ensures Ask(m, i) <= Ask(m, j)
  {
    var x, y := |m.data| as real * m.pval[i], |m.data| as real * m.pval[j];
    MulLe(|m.data| as real, m.pval[i], m.pval[j], x, y);
    CeilProperty(x);
    CeilProperty(y);
  }

  lemma FirstTwoIndices(m: Merge)
    requires Unobserved(m) && |m.qile| >= 4
    ensures var n, j, k := |m.data|, Ceil(|m.data| as real * m.pval[1]), Ceil(|m.data| as real * m.pval[2]);
            && 1 <= j <= k <= n && FirstIndex(m, 1) == j - 1
            && FirstIndex(m, 2) == if j + k <= n then j + k - 1 else n - 1
  {
    TargetRange(m, 1);
    TargetRange(m, 2);
    AskRises(m, 1, 2);
    hide Ask;
    assert Demand(m, 0) == 0;
    assert Demand(m, 1) == Ask(m, 1);
  }

  /** In particular the first two, which show that every target counts data of its own. */
  lemma FirstTwoQuantiles(m: Merge)
    requires IsFirst(m) && |m.qile| >= 4
    ensures var n, j, k := |m.data|, Ceil(|m.data| as real * m.pval[1]), Ceil(|m.data| as real * m.pval[2]);
            && 1 <= j <= k <= n && Rewritten(m)[1] == m.data[j - 1]
            && Rewritten(m)[2] == m.data[if j + k <= n then j + k - 1 else n - 1]
  {
    hide FirstIndex, Rewritten, IsFirst, Ceil;
    assert Unobserved(m) by { FirstIsUnobserved(m); }
    FirstTwoIndices(m);
    FirstQuantiles(m, 1);
    FirstQuantiles(m, 2);
  }

  lemma FirstIsUnobserved(m: Merge)
    requires IsFirst(m)
    ensures Unobserved(m)
  {
  }

  ghost predicate Increasing(s: seq<real>) {
    forall i, j :: 0 <= i < j < |s| ==> s[i] < s[j]
  }

  /** Every target gets the datum that a first batch of positive data gives it. */
  ghost predicate AsFirst(m: Merge)
    requires Unobserved(m)
  {
    forall iq :: 1 <= iq < |m.qile| - 1 ==> 0 <= FirstIndex(m, iq) && NewQuantile(m, iq) == m.data[FirstIndex(m, iq)]
  }

  /**
   * The quantile that a probability stands for is the datum its target asks for.  Of distinct data,
   * the first target gets it, and any other only if it asks for all of them.
   */
  lemma QuantileRightIff(m: Merge, iq: nat)
    requires Unobserved(m) && AsFirst(m) && Increasing(m.data) && 1 <= iq < |m.qile| - 1
    ensures 1 <= Ask(m, iq) <= |m.data|
    ensures Rewritten(m)[iq] == m.data[Ask(m, iq) - 1] <==> iq == 1 || Ask(m, iq) == |m.data|
  {
    TargetRange(m, iq);
    DemandGrows(m, iq - 1);
    assert Rewritten(m)[iq] == m.data[FirstIndex(m, iq)];
    assert Demand(m, 0) == 0;
  }

  function SumOfProbabilities(p: seq<real>, iq: nat): real
    requires iq < |p|
  {
    if iq == 0 then 0.0 else SumOfProbabilities(p, iq - 1) + p[iq]
  }

  lemma {:induction false} DemandBound(m: Merge, iq: nat)
    requires Unobserved(m) && iq < |m.pval|
    ensures |m.data| as real * SumOfProbabilities(m.pval, iq) <= Demand(m, iq) as real
  {
    if iq > 0 {
      DemandBound(m, iq - 1);
      CeilProperty(m.Target(iq));
      SumScaled(|m.data| as real, SumOfProbabilities(m.pval, iq - 1), m.pval[iq], SumOfProbabilities(m.pval, iq));
    }
  }

  lemma SumScaled(n: real, x: real, y: real, z: real)
    requires z == x + y
    ensures n * z == n * x + n * y
  {
  }

  lemma AllDemanded(m: Merge, iq: nat)
    requires Unobserved(m) && iq < |m.pval| && SumOfProbabilities(m.pval, iq) >= 1.0
    ensures |m.data| <= Demand(m, iq)
  {
    DemandBound(m, iq);
    var n, s := |m.data| as real, SumOfProbabilities(m.pval, iq);
    var t := n * s;
    MulLe(n, 1.0, s, n, t);
  }

  /** Once the probabilities up to a target add up to one, its quantile is the batch maximum. */
  lemma QuantilesCollapse(m: Merge, iq: nat)
    requires Unobserved(m) && AsFirst(m) && 1 <= iq < |m.qile| - 1
    requires SumOfProbabilities(m.pval, iq) >= 1.0
    ensures Rewritten(m)[iq] == m.Qm()
  {
    AllDemanded(m, iq);
  }
}
