/**
 * What the answer to a target means: the rank that the target stands for, the ranks between which it
 * is answered, and the values that stand there.  Nothing is asked of the stored quantiles.
 */
module MergeRanks {
  import opened Reals
  import opened Sorting
  import opened QuantileMerge
  import opened FirstBatch
  import opened MergeOrder

  // ---------------------------------------------------------------- portions of the old distribution

  /** All old observations of an interval lie between its ends. */
  lemma PortionWhole(m: Merge, jq: nat)
    requires 0 < jq < |m.qile| == |m.pval| && m.qile[jq - 1] < m.qile[jq]
    ensures m.Portion(jq, m.qile[jq - 1], m.qile[jq]) == m.nt as real * (m.pval[jq] - m.pval[jq - 1])
  {
    WholeQuotient(m.nt as real * (m.pval[jq] - m.pval[jq - 1]), m.qile[jq] - m.qile[jq - 1]);
  }

  /** Portions add up, and equal lengths hold equal portions. */
  lemma PortionAdds(m: Merge, jq: nat, x: real, y: real, z: real)
    requires 0 < jq < |m.qile| == |m.pval| && m.qile[jq - 1] < m.qile[jq]
    ensures m.Portion(jq, x, y) + m.Portion(jq, y, z) == m.Portion(jq, x, z)
    ensures y - x == z - y ==> m.Portion(jq, x, y) == m.Portion(jq, y, z)
  {
    RatioAdds(m.nt as real * (m.pval[jq] - m.pval[jq - 1]), m.qile[jq] - m.qile[jq - 1], y - x, z - y, z - x);
  }

  lemma RatioAdds(k: real, w: real, a: real, b: real, c: real)
    requires w > 0.0 && a + b == c
    ensures k * a / w + k * b / w == k * c / w
  {
    var fa, fb, fc := k * a / w, k * b / w, k * c / w;
    assert fa * w == k * a && fb * w == k * b && fc * w == k * c;
    assert k * a + k * b == k * c;
    SameProduct(w, fa + fb, fc);
  }

  // ---------------------------------------------------------------- the rank of the scan

  /** The old observations at or below x: those of the last quantile, and a share of its interval. */
  function OldRank(m: Merge, jq: nat, x: real): real
    requires m.Valid() && 1 <= jq <= |m.qile|
  {
    m.nt as real * m.pval[jq - 1]
    + if jq < |m.qile| && m.qile[jq - 1] < m.qile[jq] then m.Portion(jq, m.qile[jq - 1], x) else 0.0
  }

  /**
   * The rank of the scan that started at s and stands at c.  Once a stored quantile has been read, it
   * is all data read by any target and the old observations at or below the abscissa; until then, only
   * what the scan itself has come across.
   */
  ghost predicate Ranked(m: Merge, s: Cursor, c: Cursor)
    requires m.Valid()
  {
    && InBounds(m, s) && InBounds(m, c) && s.jd <= c.jd && s.jq <= c.jq
    && c.told == c.tnew && c.qold == c.qnew
    && c.told == if c.jq > s.jq then c.jd as real + OldRank(m, c.jq, c.qnew)
                 else (c.jd - s.jd) as real + OldRank(m, c.jq, c.qnew) - OldRank(m, c.jq, s.qnew)
  }

  /** The reading that answers the target: a quantile, a datum before it is counted, or as it is counted. */
  ghost predicate AnsweredBy(m: Merge, target: real, c: Cursor, r: Cursor)
    requires m.Valid()
  {
    InBounds(m, c) && c.told < target &&
    if c.jq < |m.qile| && (c.jd < |m.data| ==> m.qile[c.jq] < m.data[c.jd]) then
      && target <= r.tnew && r.told == c.told && r.tnew == c.jd as real + m.nt as real * m.pval[c.jq]
      && r.qold == c.qnew && r.qnew == m.qile[c.jq] && r.jd == c.jd && r.jq == c.jq + 1
    else if c.jd < |m.data| then
      var t := c.told + OldRank(m, c.jq, m.data[c.jd]) - OldRank(m, c.jq, c.qnew);
      && target <= r.tnew && r.qnew == m.data[c.jd] && r.jd == c.jd + 1 && r.jq == c.jq
      && (if target <= t then r.told == c.told && r.tnew == t && r.qold == c.qnew
          else r.told == t && r.tnew == t + 1.0 && r.qold == m.data[c.jd])
    else r == c
  }

  lemma OldRankDiffers(m: Merge, jq: nat, x: real, y: real)
    requires m.Valid() && 1 <= jq <= |m.qile|
    ensures OldRank(m, jq, y) - OldRank(m, jq, x)
            == if jq < |m.qile| && m.qile[jq - 1] < m.qile[jq] then m.Portion(jq, x, y) else 0.0
  {
    if jq < |m.qile| && m.qile[jq - 1] < m.qile[jq] {
      PortionAdds(m, jq, m.qile[jq - 1], x, y);
    }
  }

  /** At the quantile itself nothing of the next interval is counted. */
  lemma OldRankAtQuantile(m: Merge, jq: nat)
    requires m.Valid() && 1 <= jq <= |m.qile|
    ensures OldRank(m, jq, m.qile[jq - 1]) == m.OldShare(jq - 1)
  {
    if jq < |m.qile| && m.qile[jq - 1] < m.qile[jq] {
      PortionAdds(m, jq, m.qile[jq - 1], m.qile[jq - 1], m.qile[jq - 1]);
    }
  }

  lemma ReadRanked(m: Merge, target: real, s: Cursor, c: Cursor)
    requires m.Valid() && Ranked(m, s, c) && c.told < target && (c.jq < |m.qile| || c.jd < |m.data|)
    ensures var e := ReadNext(m, target, c);
            if e.Answer? then AnsweredBy(m, target, c, e.c) else Ranked(m, s, e.c) && e.c.told < target
  {
    hide Sorted;
    if QuantileIsNext(m, c) {
      OldRankAtQuantile(m, c.jq + 1);
    } else {
      OldRankDiffers(m, c.jq, c.qnew, m.data[c.jd]);
    }
  }

  lemma {:induction false} ScanRanked(m: Merge, target: real, s: Cursor, c: Cursor) returns (last: Cursor)
    requires m.Valid() && Ranked(m, s, c) && c.told < target
    ensures Ranked(m, s, last) && AnsweredBy(m, target, last, Advance(m, target, c))
    decreases |m.qile| - c.jq + |m.data| - c.jd
  {
    last := c;
    assert InBounds(m, c);
    hide Sorted, Ranked, AnsweredBy;
    if c.jq < |m.qile| || c.jd < |m.data| {
      ReadRanked(m, target, s, c);
      var e := ReadNext(m, target, c);
      if e.Continue? {
        last := ScanRanked(m, target, s, e.c);
      }
    } else {
      NothingRead(m, target, c);
    }
  }

  lemma NothingRead(m: Merge, target: real, c: Cursor)
    requires m.Valid() && InBounds(m, c) && c.jq == |m.qile| && c.jd == |m.data| && c.told < target
    ensures AnsweredBy(m, target, c, Advance(m, target, c))
  {
  }

  /** The answer, a fraction of the way from the last value but one to the last, as the rank is. */
  ghost predicate Interpolated(r: Cursor, rank: real, q: real) {
    if r.told == r.tnew then r.qold == r.qnew == q
    else r.told < rank <= r.tnew && (q - r.qold) * (r.tnew - r.told) == (r.qnew - r.qold) * (rank - r.told)
  }

  lemma InterpolationIs(r: Cursor, rank: real)
    requires (r.told < rank <= r.tnew) || (r.told == r.tnew && r.qold == r.qnew)
    ensures Interpolated(r, rank, Interpolate(r, rank))
  {
    if r.told != r.tnew {
      var d := r.tnew - r.told;
      var f := (r.qnew - r.qold) * (rank - r.told) / d;
      assert f * d == (r.qnew - r.qold) * (rank - r.told);
    }
  }

  /**
   * The target of a probability p is rank (nt + n) p: it is answered by interpolation between two
   * values read one after the other whose ranks enclose it, or by the last value if none is left.
   */
  lemma TargetAnswered(m: Merge, iq: nat) returns (last: Cursor)
    requires m.Valid() && Probabilities(m.pval) && 1 <= iq < |m.qile| - 1
    ensures var p, r, rank := CursorAt(m, iq - 1), CursorAt(m, iq), (m.nt + |m.data|) as real * m.pval[iq];
            && Ranked(m, Cursor(p.jd, p.jq, 0.0, 0.0, p.qnew, p.qnew), last)
            && AnsweredBy(m, rank, last, r) && Interpolated(r, rank, Rewritten(m)[iq])
  {
    hide Sorted, Advance, Ranked, AnsweredBy, Interpolated, Probabilities, Interpolate, OldRank;
    var p, rank := CursorAt(m, iq - 1), m.Target(iq);
    var s := Cursor(p.jd, p.jq, 0.0, 0.0, p.qnew, p.qnew);
    TargetPositive(m, iq);
    StartRanked(m, s);
    last := ScanRanked(m, rank, s, s);
    assert CursorAt(m, iq) == Advance(m, rank, s);
    assert rank == (m.nt + |m.data|) as real * m.pval[iq];
    AnswerEncloses(m, rank, s, last, CursorAt(m, iq));
    InterpolationIs(CursorAt(m, iq), rank);
    assert Rewritten(m)[iq] == Interpolate(CursorAt(m, iq), rank);
  }

  lemma StartRanked(m: Merge, s: Cursor)
    requires m.Valid() && InBounds(m, s) && s.told == s.tnew == 0.0 && s.qold == s.qnew
    ensures Ranked(m, s, s)
  {
  }

  lemma AnswerEncloses(m: Merge, rank: real, s: Cursor, last: Cursor, r: Cursor)
    requires m.Valid() && Ranked(m, s, last) && AnsweredBy(m, rank, last, r)
    ensures (r.told < rank <= r.tnew) || (r.told == r.tnew && r.qold == r.qnew)
  {
    hide OldRank, Sorted;
  }
}
