/** When the merge keeps the quantiles in order and inside the batch, exactly. */
module MergeOrder {
  import opened Reals
  import opened Sorting
  import opened QuantileMerge
  import opened FirstBatch

  /** The stored quantiles between the end points are in order. */
  ghost predicate InteriorSorted(m: Merge) {
    forall i, j :: 1 <= i < j < |m.qile| - 1 ==> m.qile[i] <= m.qile[j]
  }

  function FirstAboveFrom(m: Merge, k: nat): (r: nat)
    requires m.Valid() && 1 <= k <= |m.qile|
    ensures k <= r <= |m.qile|
    ensures forall j :: k <= j < r ==> m.qile[j] <= m.Qm()
    ensures r < |m.qile| ==> m.qile[r] > m.Qm()
    decreases |m.qile| - k
  {
    if k == |m.qile| || m.qile[k] > m.Qm() then k else FirstAboveFrom(m, k + 1)
  }

  /** The first stored quantile above the batch; one past the end if there is none. */
  function FirstAbove(m: Merge): (r: nat)
    requires m.Valid()
    ensures 1 <= r <= |m.qile|
    ensures forall j :: 1 <= j < r ==> m.qile[j] <= m.Qm()
    ensures r < |m.qile| ==> r < |m.qile| - 1 && m.qile[r] > m.Qm()
  {
    FirstAboveFrom(m, 1)
  }

  /** No stored quantile above the batch is read: the cursor after the last target has not passed one. */
  predicate StaysInside(m: Merge)
    requires m.Valid() && |m.qile| >= 3
  {
    CursorAt(m, |m.qile| - 2).jq <= FirstAbove(m)
  }

  /** In particular if there is none. */
  lemma NoneAbove(m: Merge)
    requires m.Valid() && |m.qile| >= 3
    requires forall j :: 1 <= j < |m.qile| - 1 ==> m.qile[j] <= m.Qm()
    ensures FirstAbove(m) == |m.qile| && StaysInside(m)
  {
  }

  lemma {:induction false} CursorMonotone(m: Merge, i: nat, j: nat)
    requires m.Valid() && i <= j < |m.qile|
    ensures CursorAt(m, i).jq <= CursorAt(m, j).jq
  {
    if i < j {
      CursorMonotone(m, i, j - 1);
    }
  }

  // ---------------------------------------------------------------- order and range

  /** The cursor stands at x = qnew; everything read is at most x, everything unread at least x. */
  ghost predicate Ordered(m: Merge, c: Cursor) {
    && m.Valid() && InBounds(m, c)
    && m.Q0() <= c.qnew <= m.Qm()
    && (c.jq < |m.qile| ==> c.qnew <= m.qile[c.jq])
    && (c.jd < |m.data| ==> c.qnew <= m.data[c.jd])
  }

  /** Between two readings: the target is still ahead. */
  ghost predicate Scanning(m: Merge, target: real, c: Cursor) {
    Ordered(m, c) && c.told == c.tnew < target && c.qold == c.qnew
  }

  lemma QuantileOrdered(m: Merge, target: real, c: Cursor, tnew: real)
    requires Scanning(m, target, c) && InteriorSorted(m) && QuantileIsNext(m, c) && c.jq < FirstAbove(m)
    ensures var e := ReadQuantile(m, target, c, tnew);
            && c.qnew <= e.c.qold && Ordered(m, e.c)
            && (if e.Answer? then Bracketed(e.c, target) else Scanning(m, target, e.c))
  {
    assert m.qile[c.jq] <= m.Qm();
    assert c.jq < |m.qile| - 2 ==> m.qile[c.jq] <= m.qile[c.jq + 1];
  }

  lemma DatumOrdered(m: Merge, target: real, c: Cursor, t: real)
    requires Scanning(m, target, c) && c.jd < |m.data| && !QuantileIsNext(m, c)
    ensures var e := ReadDatum(m, target, c, t);
            && c.qnew <= e.c.qold && Ordered(m, e.c)
            && (if e.Answer? then Bracketed(e.c, target) else Scanning(m, target, e.c))
  {
  }

  /** From an ordered cursor a scan that stays inside the batch only moves right, and brackets its target. */
  lemma {:induction false} AdvanceOrdered(m: Merge, target: real, c: Cursor)
    requires Scanning(m, target, c) && InteriorSorted(m) && Advance(m, target, c).jq <= FirstAbove(m)
    ensures var r := Advance(m, target, c);
            Ordered(m, r) && Bracketed(r, target) && c.qnew <= r.qold
    decreases |m.qile| - c.jq + |m.data| - c.jd
  {
    hide FirstAbove;
    if c.jq < |m.qile| || c.jd < |m.data| {
      if QuantileIsNext(m, c) {
        QuantileOrdered(m, target, c, c.jd as real + m.OldShare(c.jq));
      } else {
        DatumOrdered(m, target, c, RankBefore(m, c));
      }
      var e := ReadNext(m, target, c);
      if e.Continue? {
        AdvanceOrdered(m, target, e.c);
      }
    }
  }

  lemma SeekOrdered(m: Merge, target: real, c: Cursor)
    requires Ordered(m, c) && InteriorSorted(m) && Seek(m, target, c).jq <= FirstAbove(m)
    ensures var r := Seek(m, target, c);
            Ordered(m, r) && Bracketed(r, target) && c.qnew <= r.qold
  {
    if 0.0 < target {
      AdvanceOrdered(m, target, Cursor(c.jd, c.jq, 0.0, 0.0, c.qnew, c.qnew));
    }
  }

  /** Once the first target leaves the cursor ordered, the rest of the answers rise from there to the top. */
  lemma {:induction false} CursorOrdered(m: Merge, iq: nat)
    requires m.Valid() && InteriorSorted(m) && 1 <= iq < |m.qile|
    requires Ordered(m, CursorAt(m, 1)) && CursorAt(m, iq).jq <= FirstAbove(m)
    ensures Ordered(m, CursorAt(m, iq))
    ensures iq > 1 ==> CursorAt(m, iq - 1).qnew <= Interpolate(CursorAt(m, iq), m.Target(iq)) <= CursorAt(m, iq).qnew
  {
    if iq > 1 {
      CursorMonotone(m, iq - 1, iq);
      CursorOrdered(m, iq - 1);
      SeekOrdered(m, m.Target(iq), CursorAt(m, iq - 1));
      InterpolateBetween(CursorAt(m, iq), m.Target(iq));
    }
  }

  lemma {:induction false} CursorRises(m: Merge, i: nat, j: nat)
    requires m.Valid() && InteriorSorted(m) && 1 <= i <= j < |m.qile|
    requires Ordered(m, CursorAt(m, 1)) && CursorAt(m, j).jq <= FirstAbove(m)
    ensures CursorAt(m, i).qnew <= CursorAt(m, j).qnew
  {
    if i < j {
      CursorMonotone(m, j - 1, j);
      CursorRises(m, i, j - 1);
      CursorOrdered(m, j);
    }
  }

  ghost predicate Within(s: seq<real>, lo: real, hi: real) {
    forall i :: 0 <= i < |s| ==> lo <= s[i] <= hi
  }

  ghost predicate AnsweredInside(m: Merge, target: real, r: Cursor) {
    Ordered(m, r) && m.Q0() <= Interpolate(r, target) <= r.qnew
  }

  /** What makes the whole rewrite orderly. */
  ghost predicate Orderly(m: Merge) {
    && m.Valid() && |m.qile| >= 3 && InteriorSorted(m) && StaysInside(m)
    && AnsweredInside(m, m.Target(1), CursorAt(m, 1))
  }

  lemma NewQuantileInside(m: Merge, iq: nat)
    requires Orderly(m) && 1 <= iq < |m.qile| - 1
    ensures m.Q0() <= NewQuantile(m, iq) <= CursorAt(m, iq).qnew <= m.Qm()
  {
    hide FirstAbove, Advance, Interpolate, Sorted, InteriorSorted, CursorAt;
    CursorMonotone(m, iq, |m.qile| - 2);
    CursorOrdered(m, iq);
    if iq > 1 {
      CursorMonotone(m, iq - 1, iq);
      CursorRises(m, 1, iq - 1);
    }
  }

  lemma MiddleQuantilesRise(m: Merge, i: nat, j: nat)
    requires Orderly(m) && 1 <= i < j < |m.qile| - 1
    ensures NewQuantile(m, i) <= NewQuantile(m, j)
  {
    hide FirstAbove, Advance, Interpolate, Sorted, InteriorSorted, CursorAt;
    NewQuantileInside(m, i);
    CursorMonotone(m, j - 1, |m.qile| - 2);
    CursorMonotone(m, j, |m.qile| - 2);
    CursorRises(m, i, j - 1);
    CursorOrdered(m, j);
  }

  lemma NewQuantilesRise(m: Merge, i: nat, j: nat)
    requires Orderly(m) && i < j < |m.qile|
    ensures NewQuantile(m, i) <= NewQuantile(m, j)
  {
    assert m.Q0() <= m.Qm();
    if 0 < i && j < |m.qile| - 1 {
      MiddleQuantilesRise(m, i, j);
    } else if 0 < i {
      NewQuantileInside(m, i);
    } else if j < |m.qile| - 1 {
      NewQuantileInside(m, j);
    }
  }

  lemma RewrittenOrdered(m: Merge)
    requires Orderly(m)
    ensures Sorted(Rewritten(m)) && Within(Rewritten(m), m.Q0(), m.Qm())
  {
    var r, n := Rewritten(m), |m.qile|;
    forall i, j | 0 <= i < j < n
      ensures r[i] <= r[j]
    {
      NewQuantilesRise(m, i, j);
    }
    assert r[0] == m.Q0() && r[n - 1] == m.Qm();
  }

  // ---------------------------------------------------------------- at the bottom: the first target

  /** How many stored quantiles, from the second on, lie below the batch; they come first. */
  function LowCount(m: Merge): (k: nat)
    requires m.Valid()
    ensures k <= |m.qile| - 2
    ensures forall j :: 1 <= j <= k ==> m.qile[j] < m.Q0()
    ensures m.Q0() <= m.qile[k + 1]
  {
    var k := Position(m.qile[1..], m.Q0());
    assert m.Q0() <= m.Qm();
    assert m.qile[1..][|m.qile| - 2] == m.Qm();
    assert forall j :: 1 <= j <= k ==> m.qile[j] == m.qile[1..][j - 1];
    assert m.qile[k + 1] == m.qile[1..][k];
    k
  }

  /** How many old observations the stored quantiles place below the batch minimum. */
  function OldRankBelow(m: Merge): real
    requires m.Valid()
  {
    var k := LowCount(m);
    if k == 0 then 0.0 else m.OldShare(k) + m.Portion(k + 1, m.qile[k], m.Q0())
  }

  lemma LowCountAll(m: Merge)
    requires m.Valid() && forall j :: 1 <= j < |m.qile| - 1 ==> m.qile[j] < m.Q0()
    ensures LowCount(m) == |m.qile| - 2
  {
    var low := LowCount(m);
    assert m.Q0() <= m.qile[low + 1];
  }

  lemma LowCountNone(m: Merge)
    requires m.Valid() && |m.qile| >= 3 && m.Q0() <= m.qile[1]
    ensures LowCount(m) == 0 && OldRankBelow(m) == 0.0
  {
  }

  lemma OldRankZero(m: Merge)
    requires m.Valid() && m.nt == 0
    ensures OldRankBelow(m) == 0.0
  {
    NothingOld(m);
  }

  lemma InterpolateBelow(c: Cursor, target: real)
    requires c.qold < c.qnew && c.told < target < c.tnew
    ensures Interpolate(c, target) < c.qnew
  {
    var f := (target - c.told) / (c.tnew - c.told);
    var d := c.qnew - c.qold;
    FractionBelowOne(target - c.told, c.tnew - c.told);
    MulLt(d, f, 1.0, d * f, d);
    ScaledFraction(d, target - c.told, c.tnew - c.told, f, d * f);
  }

  lemma FractionBelowOne(num: real, den: real)
    requires 0.0 < num < den
    ensures num / den < 1.0
  {
    var f := num / den;
    assert f * den == num;
    if f >= 1.0 {
      MulLe(den, 1.0, f, den, num);
    }
  }

  /** While the cursor is still below the batch: the j-th low quantile has been read. */
  ghost predicate Below(m: Merge, j: nat, c: Cursor) {
    && m.Valid() && |m.qile| >= 3 && InteriorSorted(m) && 1 <= j <= LowCount(m)
    && c == Cursor(0, j + 1, m.OldShare(j), m.OldShare(j), m.qile[j], m.qile[j])
  }

  /** An answer inside, provided that the scan did not leave the batch at the top. */
  ghost predicate InsideUnlessAbove(m: Merge, target: real, r: Cursor)
    requires m.Valid()
  {
    r.jq <= FirstAbove(m) ==> AnsweredInside(m, target, r)
  }

  /**
   * The first target is answered at or above the batch minimum exactly when it is not below the
   * rank that the old distribution gives to that minimum.
   */
  lemma {:induction false} LowPhase(m: Merge, target: real, j: nat, c: Cursor)
    requires Below(m, j, c) && Probabilities(m.pval) && m.nt > 0 && m.OldShare(j) < target
    ensures var r := Advance(m, target, c);
            if OldRankBelow(m) <= target then InsideUnlessAbove(m, target, r) else Interpolate(r, target) < m.Q0()
    decreases LowCount(m) - j
  {
    hide InsideUnlessAbove, InteriorSorted;
    var k := LowCount(m);
    if j < k {
      var share := m.OldShare(j + 1);
      assert ReadNext(m, target, c) == ReadQuantile(m, target, c, share);
      if share >= target {
        LowAnswer(m, target, j, c);
      } else {
        LowPhase(m, target, j + 1, Cursor(0, j + 2, share, share, m.qile[j + 1], m.qile[j + 1]));
      }
    } else {
      PortionPositive(m, k + 1, m.qile[k], m.Q0());
      assert RankBefore(m, c) == OldRankBelow(m);
      assert ReadNext(m, target, c) == ReadDatum(m, target, c, OldRankBelow(m));
      LowPhaseEnds(m, target, c, OldRankBelow(m));
    }
  }

  /** A target answered by a low quantile. */
  lemma LowAnswer(m: Merge, target: real, j: nat, c: Cursor)
    requires Below(m, j, c) && Probabilities(m.pval)
    requires m.nt > 0 && m.OldShare(j) < target && j < LowCount(m) && m.OldShare(j + 1) >= target
    ensures Interpolate(ReadQuantile(m, target, c, m.OldShare(j + 1)).c, target) < m.Q0()
    ensures OldRankBelow(m) > target
  {
    var k := LowCount(m);
    var r := ReadQuantile(m, target, c, m.OldShare(j + 1)).c;
    assert m.qile[j] <= m.qile[j + 1];
    InterpolateBetween(r, target);
    ShareRises(m, j + 1, k);
    PortionPositive(m, k + 1, m.qile[k], m.Q0());
  }

  /** All low quantiles have been read: the next value is the batch minimum, at rank t. */
  lemma LowPhaseEnds(m: Merge, target: real, c: Cursor, t: real)
    requires m.Valid() && InteriorSorted(m) && InBounds(m, c)
    requires c.jd == 0 && c.jq < |m.qile| && m.Q0() <= m.qile[c.jq]
    requires c.qold == c.qnew < m.Q0() && c.told == c.tnew < target && c.told < t
    ensures var e := ReadDatum(m, target, c, t);
            var r := if e.Answer? then e.c else Advance(m, target, e.c);
            if t <= target then InsideUnlessAbove(m, target, r) else Interpolate(r, target) < m.Q0()
  {
    var e := ReadDatum(m, target, c, t);
    if t > target {
      InterpolateBelow(e.c, target);
    } else if t == target {
      InterpolateAt(e.c, target);
    } else {
      BatchReached(m, target, e);
    }
  }

  /** The batch minimum has been read and counted. */
  lemma BatchReached(m: Merge, target: real, e: Event)
    requires m.Valid() && InteriorSorted(m) && Ordered(m, e.c) && e.c.qnew == m.Q0() == e.c.qold
    requires if e.Answer? then e.c.told < target <= e.c.tnew else e.c.told == e.c.tnew < target
    ensures var r := if e.Answer? then e.c else Advance(m, target, e.c);
            InsideUnlessAbove(m, target, r)
  {
    var r := if e.Answer? then e.c else Advance(m, target, e.c);
    if r.jq <= FirstAbove(m) {
      if e.Continue? {
        AdvanceOrdered(m, target, e.c);
      }
      InterpolateBetween(r, target);
    }
  }

  lemma InterpolateAt(c: Cursor, target: real)
    requires c.told < target == c.tnew
    ensures Interpolate(c, target) == c.qnew
  {
    FullWay(c.qold, c.qnew, target - c.told, c.tnew - c.told);
  }

  lemma FullWay(x: real, y: real, num: real, den: real)
    requires num == den && den != 0.0
    ensures x + (y - x) * num / den == y
  {
    ScaledFraction(y - x, num, den, 1.0, y - x);
  }

  lemma FirstTarget(m: Merge)
    requires m.Valid() && Probabilities(m.pval) && InteriorSorted(m) && |m.qile| >= 3
    ensures var r := CursorAt(m, 1);
            if OldRankBelow(m) <= m.Target(1) then InsideUnlessAbove(m, m.Target(1), r)
            else Interpolate(r, m.Target(1)) < m.Q0()
  {
    var target := m.Target(1);
    var c := Start(m);
    assert CursorAt(m, 0) == c;
    TargetPositive(m, 1);
    if m.nt == 0 {
      OldRankZero(m);
      FirstTargetUnobserved(m);
    } else if LowCount(m) == 0 {
      assert Ordered(m, c);
      FirstTargetCovered(m);
    } else {
      TargetAboveShare(m, 1);
      var share := m.OldShare(1);
      assert ReadNext(m, target, c) == ReadQuantile(m, target, c, share);
      var c' := Cursor(0, 2, share, share, m.qile[1], m.qile[1]);
      assert Advance(m, target, c) == Advance(m, target, c');
      LowPhase(m, target, 1, c');
    }
  }

  lemma FirstTargetUnobserved(m: Merge)
    requires Unobserved(m)
    ensures AnsweredInside(m, m.Target(1), CursorAt(m, 1))
  {
    FirstCursor(m);
    InterpolateBetween(CursorAt(m, 1), m.Target(1));
  }

  lemma FirstTargetCovered(m: Merge)
    requires m.Valid() && InteriorSorted(m) && |m.qile| >= 3 && Ordered(m, Start(m)) && 0.0 < m.Target(1)
    ensures InsideUnlessAbove(m, m.Target(1), CursorAt(m, 1))
  {
    hide FirstAbove, Advance, Interpolate;
    assert CursorAt(m, 0) == Start(m) && CursorAt(m, 1) == Seek(m, m.Target(1), Start(m));
    if CursorAt(m, 1).jq <= FirstAbove(m) {
      SeekOrdered(m, m.Target(1), Start(m));
      InterpolateBetween(CursorAt(m, 1), m.Target(1));
    }
  }

  // ---------------------------------------------------------------- at the top: quantiles above the batch

  /** Once all data are read, what comes next is no longer below the batch maximum. */
  ghost predicate AtTop(m: Merge, c: Cursor) {
    && m.Valid() && InBounds(m, c)
    && (c.jd == |m.data| ==> (c.jq < |m.qile| ==> m.Qm() <= m.qile[c.jq]) && (c.jq <= FirstAbove(m) ==> c.qnew == m.Qm()))
  }

  /** The last stored quantile has a rank that exceeds every target. */
  lemma TargetBelowLast(m: Merge, iq: nat)
    requires m.Valid() && Probabilities(m.pval) && iq < |m.pval| - 1
    ensures m.Target(iq) < |m.data| as real + m.OldShare(|m.pval| - 1)
  {
    var p, n, nt := m.pval[iq], |m.data| as real, m.nt as real;
    var q := m.pval[|m.pval| - 1];
    MulLt(n, p, 1.0, n * p, n);
    MulLe(nt, p, q, nt * p, nt * q);
    assert m.Target(iq) == nt * p + n * p;
  }

  lemma InterpolateAbove(c: Cursor, target: real, x: real)
    requires x <= c.qold && x <= c.qnew && c.told < target <= c.tnew
    requires (c.qnew > x && (c.qold > x || target > c.told)) || (c.qold > x && target < c.tnew)
    ensures Interpolate(c, target) > x
  {
    var num, den := target - c.told, c.tnew - c.told;
    var f := num / den;
    assert f * den == num;
    assert f > 0.0 by { QuotientPositive(num, den); }
    FractionInUnit(num, den);
    if target < c.tnew {
      FractionBelowOne(num, den);
    }
    ScaledFraction(c.qnew - c.qold, num, den, f, f * (c.qnew - c.qold));
    AboveBlend(f, c.qnew, c.qold, x);
  }

  lemma AboveBlend(f: real, y: real, z: real, x: real)
    requires 0.0 < f <= 1.0 && x <= y && x <= z && (y > x || (z > x && f < 1.0))
    ensures z + f * (y - z) > x
  {
    var a, b := f * (y - x), (1.0 - f) * (z - x);
    MulNonNegative(f, y - x, a);
    MulNonNegative(1.0 - f, z - x, b);
    if y > x {
      MulLt(f, 0.0, y - x, 0.0, a);
    } else {
      MulLt(1.0 - f, 0.0, z - x, 0.0, b);
    }
    assert z + f * (y - z) == x + a + b;
  }

  /** A scan that has read a quantile above the batch answers above the batch. */
  lemma {:induction false} HighPhase(m: Merge, target: real, c: Cursor)
    requires m.Valid() && InBounds(m, c) && InteriorSorted(m)
    requires c.jd == |m.data| && FirstAbove(m) <= c.jq < |m.qile|
    requires c.told == c.tnew < target && c.qold == c.qnew >= m.Qm() && (c.jq == FirstAbove(m) || c.qnew > m.Qm())
    requires target < |m.data| as real + m.OldShare(|m.qile| - 1)
    ensures Interpolate(Advance(m, target, c), target) > m.Qm() && Advance(m, target, c).jq > FirstAbove(m)
    decreases |m.qile| - c.jq
  {
    var tnew := c.jd as real + m.OldShare(c.jq);
    var e := ReadQuantile(m, target, c, tnew);
    assert ReadNext(m, target, c) == e;
    assert c.jq < |m.qile| - 1 ==> m.qile[c.jq] > m.Qm();
    if e.Answer? {
      InterpolateAbove(e.c, target, m.Qm());
    } else {
      HighPhase(m, target, e.c);
    }
  }

  /** Either the scan does not read a quantile above the batch, or it answers above the batch. */
  lemma {:induction false} AdvanceAtTop(m: Merge, target: real, c: Cursor)
    requires AtTop(m, c) && InteriorSorted(m) && c.jq <= FirstAbove(m)
    requires c.told == c.tnew < target && c.qold == c.qnew
    requires target < |m.data| as real + m.OldShare(|m.qile| - 1)
    ensures var r := Advance(m, target, c);
            if r.jq <= FirstAbove(m) then AtTop(m, r) else Interpolate(r, target) > m.Qm()
    decreases |m.qile| - c.jq + |m.data| - c.jd
  {
    hide FirstAbove, Interpolate;
    if c.jq < |m.qile| || c.jd < |m.data| {
      if c.jq == FirstAbove(m) && QuantileIsNext(m, c) {
        assert c.jd == |m.data| by { AboveIsLast(m, c); }
        HighPhase(m, target, c);
      } else {
        var e := ReadNext(m, target, c);
        StepAtTop(m, target, c);
        if e.Continue? {
          AdvanceAtTop(m, target, e.c);
        }
      }
    }
  }

  lemma AboveIsLast(m: Merge, c: Cursor)
    requires m.Valid() && InBounds(m, c) && c.jq == FirstAbove(m) && QuantileIsNext(m, c)
    ensures c.jd == |m.data|
  {
    assert forall k :: 0 <= k < |m.data| ==> m.data[k] <= m.Qm();
  }

  lemma StepAtTop(m: Merge, target: real, c: Cursor)
    requires AtTop(m, c) && InteriorSorted(m) && c.jq <= FirstAbove(m) && (c.jq < |m.qile| || c.jd < |m.data|)
    requires c.told == c.tnew < target && c.qold == c.qnew
    requires !(c.jq == FirstAbove(m) && QuantileIsNext(m, c))
    ensures var e := ReadNext(m, target, c);
            && AtTop(m, e.c) && e.c.jq <= FirstAbove(m)
            && (e.Continue? ==> e.c.told == e.c.tnew < target && e.c.qold == e.c.qnew)
  {
    if QuantileIsNext(m, c) {
      assert m.qile[c.jq] <= m.Qm();
      assert c.jq + 1 < |m.qile| - 1 ==> m.qile[c.jq] <= m.qile[c.jq + 1];
    }
  }

  /** If some target makes the cursor pass a quantile above the batch, some new quantile is above the batch. */
  lemma {:induction false} ReadsAbove(m: Merge, iq: nat) returns (i: nat)
    requires m.Valid() && |m.qile| >= 3 && InteriorSorted(m) && Probabilities(m.pval)
    requires iq < |m.qile| - 1
    ensures CursorAt(m, iq).jq <= FirstAbove(m) ==> AtTop(m, CursorAt(m, iq))
    ensures CursorAt(m, iq).jq > FirstAbove(m) ==> 1 <= i <= iq && NewQuantile(m, i) > m.Qm()
  {
    i := iq;
    if iq > 0 {
      var p := CursorAt(m, iq - 1);
      i := ReadsAbove(m, iq - 1);
      if p.jq <= FirstAbove(m) {
        i := iq;
        TargetPositive(m, iq);
        TargetBelowLast(m, iq);
        AdvanceAtTop(m, m.Target(iq), Cursor(p.jd, p.jq, 0.0, 0.0, p.qnew, p.qnew));
      } else {
        CursorMonotone(m, iq - 1, iq);
      }
    }
  }

  /** Reading above the batch breaks the range. */
  lemma AboveBreaksRange(m: Merge)
    requires m.Valid() && |m.qile| >= 3 && InteriorSorted(m) && Probabilities(m.pval) && !StaysInside(m)
    ensures !Within(Rewritten(m), m.Q0(), m.Qm())
  {
    var i := ReadsAbove(m, |m.qile| - 2);
    assert Rewritten(m)[i] > m.Qm();
  }

  /** A target reads at least one value, as long as there is one. */
  lemma {:induction false} EachTargetReads(m: Merge, iq: nat)
    requires m.Valid() && Probabilities(m.pval) && iq < |m.qile|
    ensures var c := CursorAt(m, iq);
            c.jd + c.jq >= iq + 1 || (c.jd == |m.data| && c.jq == |m.qile|)
  {
    if iq > 0 {
      EachTargetReads(m, iq - 1);
      var p := CursorAt(m, iq - 1);
      var c := Cursor(p.jd, p.jq, 0.0, 0.0, p.qnew, p.qnew);
      TargetPositive(m, iq);
      if c.jq < |m.qile| || c.jd < |m.data| {
        AdvanceStep(m, m.Target(iq), c);
      }
    }
  }

  /** A batch with fewer data than there are stored quantiles above it always reaches them. */
  lemma FewDataReachAbove(m: Merge)
    requires m.Valid() && |m.qile| >= 3 && Probabilities(m.pval)
    requires |m.data| < |m.qile| - 1 - FirstAbove(m)
    ensures !StaysInside(m)
  {
    EachTargetReads(m, |m.qile| - 2);
  }

  // ---------------------------------------------------------------- at the top: ranks

  /** The rank that the old distribution gives to x, within the jq-th stored interval. */
  function RankAt(m: Merge, jq: nat, x: real): real
    requires m.Valid() && 1 <= jq < |m.qile|
  {
    m.OldShare(jq - 1) + if m.qile[jq - 1] < m.qile[jq] then m.Portion(jq, m.qile[jq - 1], x) else 0.0
  }

  /** How many old observations the stored quantiles place at or below the batch maximum. */
  function OldRankOfMax(m: Merge): real
    requires m.Valid() && FirstAbove(m) < |m.qile|
  {
    RankAt(m, FirstAbove(m), m.Qm())
  }

  lemma Quotients(k: real, w: real, z: real, x: real, y: real)
    requires 0.0 <= k && 0.0 < w && z <= x <= y
    ensures 0.0 <= k * (x - z) / w <= k * (y - z) / w
    ensures k * (x - z) / w + k * (y - x) / w == k * (y - z) / w
  {
    var a, b, c := k * (x - z), k * (y - x), k * (y - z);
    MulNonNegative(k, x - z, a);
    MulNonNegative(k, y - x, b);
    assert a + b == c;
    var fa, fb, fc := a / w, b / w, c / w;
    assert fa * w == a && fb * w == b && fc * w == c;
    SameProduct(w, fa + fb, fc);
    NonNegativeRatio(a, w);
    NonNegativeRatio(b, w);
  }

  lemma SameProduct(w: real, x: real, y: real)
    requires w > 0.0 && x * w == y * w
    ensures x == y
  {
    if x < y {
      MulLt(w, x, y, x * w, y * w);
    } else if y < x {
      MulLt(w, y, x, y * w, x * w);
    }
  }

  lemma NonNegativeRatio(a: real, w: real)
    requires 0.0 <= a && 0.0 < w
    ensures 0.0 <= a / w
  {
    if a > 0.0 {
      QuotientPositive(a, w);
    }
  }

  lemma OldWeight(m: Merge, jq: nat) returns (k: real)
    requires m.Valid() && Probabilities(m.pval) && 0 < jq < |m.pval|
    ensures k == m.nt as real * (m.pval[jq] - m.pval[jq - 1]) == m.OldShare(jq) - m.OldShare(jq - 1) && 0.0 <= k
  {
    k := m.nt as real * (m.pval[jq] - m.pval[jq - 1]);
    MulNonNegative(m.nt as real, m.pval[jq] - m.pval[jq - 1], k);
  }

  lemma PortionIs(m: Merge, jq: nat, x: real, y: real, k: real, w: real)
    requires m.Valid() && 0 < jq < |m.qile| && m.qile[jq - 1] < m.qile[jq]
    requires k == m.nt as real * (m.pval[jq] - m.pval[jq - 1]) && w == m.qile[jq] - m.qile[jq - 1]
    ensures m.Portion(jq, x, y) == k * (y - x) / w
  {
  }

  /** Ranks rise inside an interval, and add up. */
  lemma RankRises(m: Merge, jq: nat, x: real, y: real)
    requires m.Valid() && Probabilities(m.pval) && 1 <= jq < |m.qile| && m.qile[jq - 1] <= x <= y
    ensures m.OldShare(jq - 1) <= RankAt(m, jq, x) <= RankAt(m, jq, y)
    ensures m.qile[jq - 1] < m.qile[jq] ==> RankAt(m, jq, x) + m.Portion(jq, x, y) == RankAt(m, jq, y)
  {
    hide Probabilities, Sorted;
    var k := OldWeight(m, jq);
    var z, w := m.qile[jq - 1], m.qile[jq] - m.qile[jq - 1];
    if 0.0 < w {
      Quotients(k, w, z, x, y);
      PortionIs(m, jq, z, x, k, w);
      PortionIs(m, jq, z, y, k, w);
      PortionIs(m, jq, x, y, k, w);
    }
  }

  lemma WholeQuotient(k: real, w: real)
    requires 0.0 < w
    ensures k * w / w == k
  {
    SameProduct(w, k * w / w, k);
  }

  /** The rank at the end of an interval is that of the next one. */
  lemma RankAtEnd(m: Merge, jq: nat, x: real)
    requires m.Valid() && Probabilities(m.pval) && 1 <= jq < |m.qile| && m.qile[jq - 1] <= x <= m.qile[jq]
    ensures RankAt(m, jq, x) <= m.OldShare(jq)
  {
    hide Probabilities, Sorted;
    var k := OldWeight(m, jq);
    RankRises(m, jq, x, m.qile[jq]);
    var w := m.qile[jq] - m.qile[jq - 1];
    if 0.0 < w {
      WholeQuotient(k, w);
      PortionIs(m, jq, m.qile[jq - 1], m.qile[jq], k, w);
    }
  }

  /** The abscissa lies between the last quantile read and the next datum. */
  ghost predicate Tight(m: Merge, c: Cursor) {
    && m.Valid() && InBounds(m, c) && c.jq <= FirstAbove(m) < |m.qile|
    && m.qile[c.jq - 1] <= c.qnew <= m.Qm()
    && (c.jd < |m.data| ==> c.qnew <= m.data[c.jd])
  }

  /** A rank below the batch maximum is at most that of the maximum. */
  lemma RankBelowMax(m: Merge, jq: nat, x: real)
    requires m.Valid() && Probabilities(m.pval) && 1 <= jq <= FirstAbove(m) < |m.qile|
    requires m.qile[jq - 1] <= x <= m.Qm() && (jq < FirstAbove(m) ==> x <= m.qile[jq])
    ensures RankAt(m, jq, x) <= OldRankOfMax(m)
  {
    var k := FirstAbove(m);
    if jq < k {
      RankAtEnd(m, jq, x);
      ShareRises(m, jq, k - 1);
      RankRises(m, k, m.qile[k - 1], m.Qm());
    } else {
      RankRises(m, jq, x, m.Qm());
    }
  }

  lemma ShareBelowMax(m: Merge, j: nat)
    requires m.Valid() && Probabilities(m.pval) && j < FirstAbove(m) < |m.qile|
    ensures m.OldShare(j) <= OldRankOfMax(m)
  {
    var k := FirstAbove(m);
    assert m.qile[k - 1] <= m.Qm();
    ShareRises(m, j, k - 1);
    RankRises(m, k, m.qile[k - 1], m.Qm());
  }

  /** As long as no quantile above the batch is read, no rank exceeds all data and that of the maximum. */
  lemma {:induction false} RankBounded(m: Merge, target: real, c: Cursor)
    requires Tight(m, c) && Probabilities(m.pval) && Advance(m, target, c).jq <= FirstAbove(m)
    requires c.told == c.tnew < target && c.qold == c.qnew && c.told <= c.jd as real + RankAt(m, c.jq, c.qnew)
    ensures var r := Advance(m, target, c);
            Tight(m, r) && target <= r.tnew <= |m.data| as real + OldRankOfMax(m)
    decreases |m.qile| - c.jq + |m.data| - c.jd
  {
    hide FirstAbove, RankAt, OldRankOfMax, Probabilities, Sorted;
    AdvanceStep(m, target, c);
    var e := ReadNext(m, target, c);
    if QuantileIsNext(m, c) {
      ReadsInside(m, target, c);
    } else {
      DatumInside(m, target, c);
    }
    if e.Continue? {
      RankBounded(m, target, e.c);
    }
  }

  lemma ReadsInside(m: Merge, target: real, c: Cursor)
    requires Tight(m, c) && Probabilities(m.pval) && QuantileIsNext(m, c) && c.jq < FirstAbove(m)
    requires c.told == c.tnew < target && c.qold == c.qnew
    ensures var e := ReadNext(m, target, c);
            && Tight(m, e.c) && e.c.tnew <= |m.data| as real + OldRankOfMax(m)
            && (if e.Answer? then target <= e.c.tnew
                else e.c.told == e.c.tnew < target && e.c.qold == e.c.qnew
                     && e.c.told <= e.c.jd as real + RankAt(m, e.c.jq, e.c.qnew))
  {
    hide Probabilities;
    var x := m.qile[c.jq];
    assert x <= m.Qm();
    RankRises(m, c.jq + 1, x, x);
    assert m.OldShare(c.jq) <= RankAt(m, c.jq + 1, x);
    ShareBelowMax(m, c.jq);
  }

  lemma DatumInside(m: Merge, target: real, c: Cursor)
    requires Tight(m, c) && Probabilities(m.pval) && !QuantileIsNext(m, c)
    requires c.told == c.tnew < target && c.qold == c.qnew && c.told <= c.jd as real + RankAt(m, c.jq, c.qnew)
    ensures var e := ReadNext(m, target, c);
            && Tight(m, e.c) && e.c.tnew <= |m.data| as real + OldRankOfMax(m)
            && (if e.Answer? then target <= e.c.tnew
                else e.c.told == e.c.tnew < target && e.c.qold == e.c.qnew
                     && e.c.told <= e.c.jd as real + RankAt(m, e.c.jq, e.c.qnew))
  {
    hide Probabilities;
    var x := m.data[c.jd];
    assert x <= m.Qm();
    RankRises(m, c.jq, c.qnew, x);
    RankBelowMax(m, c.jq, x);
    assert RankBefore(m, c) <= c.jd as real + RankAt(m, c.jq, x);
  }

  /** A target whose cursor has passed no quantile above the batch is at most that rank. */
  lemma {:induction false} CursorTight(m: Merge, iq: nat)
    requires m.Valid() && Probabilities(m.pval) && iq < |m.qile| && CursorAt(m, iq).jq <= FirstAbove(m) < |m.qile|
    ensures Tight(m, CursorAt(m, iq))
    ensures iq > 0 ==> m.Target(iq) <= |m.data| as real + OldRankOfMax(m)
  {
    hide FirstAbove, RankAt, OldRankOfMax, Probabilities, Advance;
    if iq > 0 {
      CursorMonotone(m, iq - 1, iq);
      CursorTight(m, iq - 1);
      TargetPositive(m, iq);
      var p := CursorAt(m, iq - 1);
      RankRises(m, p.jq, p.qnew, p.qnew);
      ShareNonNegative(m, p.jq - 1);
      RankBounded(m, m.Target(iq), Cursor(p.jd, p.jq, 0.0, 0.0, p.qnew, p.qnew));
    }
  }

  lemma ShareNonNegative(m: Merge, jq: nat)
    requires m.Valid() && Probabilities(m.pval) && jq < |m.pval|
    ensures 0.0 <= m.OldShare(jq)
  {
    MulNonNegative(m.nt as real, m.pval[jq], m.OldShare(jq));
  }

  /**
   * The counterpart of the condition at the bottom: if the last target exceeds the rank of the batch
   * maximum, all data and the old observations at or below it, a quantile above the batch is read.
   */
  lemma LastTargetReachesAbove(m: Merge)
    requires m.Valid() && |m.qile| >= 3 && Probabilities(m.pval) && FirstAbove(m) < |m.qile|
    requires m.Target(|m.qile| - 2) > |m.data| as real + OldRankOfMax(m)
    ensures !StaysInside(m)
    ensures InteriorSorted(m) ==> !Within(Rewritten(m), m.Q0(), m.Qm())
  {
    hide FirstAbove, OldRankOfMax, Probabilities, Within, Rewritten;
    if StaysInside(m) {
      CursorTight(m, |m.qile| - 2);
    } else if InteriorSorted(m) {
      AboveBreaksRange(m);
    }
  }

  // ---------------------------------------------------------------- the exact condition

  /**
   * When the stored quantiles are in order, the rewritten ones are in order and inside the batch
   * exactly if the old observations below the batch minimum do not exceed the first target rank
   * and no stored quantile above the batch maximum is read.
   */
  lemma OrderedIff(m: Merge)
    requires m.Valid() && Probabilities(m.pval) && InteriorSorted(m) && |m.qile| >= 3
    ensures Sorted(Rewritten(m)) && Within(Rewritten(m), m.Q0(), m.Qm())
            <==> OldRankBelow(m) <= m.Target(1) && StaysInside(m)
  {
    FirstTarget(m);
    if !StaysInside(m) {
      AboveBreaksRange(m);
    } else if OldRankBelow(m) <= m.Target(1) {
      CursorMonotone(m, 1, |m.qile| - 2);
      RewrittenOrdered(m);
    } else {
      assert Rewritten(m)[1] < m.Q0();
    }
  }

  /** In particular whenever the stored quantiles are in order with the new end points in place. */
  lemma SortedStaysSorted(m: Merge)
    requires m.Valid() && Probabilities(m.pval) && Sorted(m.qile) && |m.qile| >= 3
    ensures Sorted(Rewritten(m)) && Within(Rewritten(m), m.Q0(), m.Qm())
  {
    assert m.qile[0] <= m.qile[1];
    LowCountNone(m);
    TargetPositive(m, 1);
    NoneAbove(m);
    OrderedIff(m);
  }
}
