/**
 * A merge with nothing observed before but quantiles left over, as after a reset: when the left-over
 * quantiles make no difference, exactly.
 */
module StaleQuantiles {
  import opened Reals
  import opened Sorting
  import opened QuantileMerge
  import opened FirstBatch

  /** How many stored quantiles the first target passes: those below the datum that answers it. */
  function Passed(m: Merge): (k: nat)
    requires Unobserved(m)
    ensures k <= |m.qile| - 2 && 1 <= Ask(m, 1) <= |m.data|
    ensures forall j :: 1 <= j <= k ==> m.qile[j] < m.data[Ask(m, 1) - 1]
    ensures m.data[Ask(m, 1) - 1] <= m.qile[k + 1]
  {
    TargetRange(m, 1);
    var x := m.data[Ask(m, 1) - 1];
    var k := Position(m.qile[1..], x);
    assert x <= m.Qm();
    assert m.qile[1..][|m.qile| - 2] == m.Qm();
    assert forall j :: 1 <= j <= k ==> m.qile[j] == m.qile[1..][j - 1];
    assert m.qile[k + 1] == m.qile[1..][k];
    k
  }

  /** How many of the targets 1..iq find no datum left for them; each of these reads a stored quantile. */
  function Reads(m: Merge, iq: nat): (k: nat)
    requires iq < |m.pval|
    ensures k <= iq
  {
    if iq == 0 then 0 else Reads(m, iq - 1) + (if Demand(m, iq) > |m.data| then 1 else 0)
  }

  lemma {:induction false} ReadsRise(m: Merge, i: nat, j: nat)
    requires i <= j < |m.pval|
    ensures Reads(m, i) <= Reads(m, j)
  {
    if i < j {
      ReadsRise(m, i, j - 1);
    }
  }

  /** The k stored quantiles after those equal the batch maximum. */
  ghost predicate FlatFor(m: Merge, k: nat)
    requires Unobserved(m)
  {
    forall j :: Passed(m) < j <= Passed(m) + k && j < |m.qile| - 1 ==> m.qile[j] == m.Qm()
  }

  /** The stored quantiles that are left for the targets without a datum equal the batch maximum. */
  ghost predicate Undisturbed(m: Merge)
    requires Unobserved(m)
  {
    FlatFor(m, Reads(m, |m.qile| - 2))
  }

  lemma FirstPasses(m: Merge)
    requires Unobserved(m)
    ensures CursorAt(m, 1).jq == Passed(m) + 1 && Demand(m, 1) == Ask(m, 1)
  {
    FirstCursor(m);
    assert Demand(m, 0) == 0;
  }

  // ---------------------------------------------------------------- nothing in the way

  function ReadUpTo(m: Merge, iq: nat): nat
    requires Unobserved(m) && iq < |m.pval|
  {
    if Passed(m) + 1 + Reads(m, iq) < |m.qile| then Passed(m) + 1 + Reads(m, iq) else |m.qile|
  }

  /** The cursor after target iq: on its datum, or past as many quantiles as targets found no datum. */
  ghost predicate Positioned(m: Merge, iq: nat, r: Cursor)
    requires Unobserved(m) && 1 <= iq < |m.pval|
  {
    && r.qold == r.qnew && Bracketed(r, m.Target(iq)) && r.jq == ReadUpTo(m, iq)
    && (if Demand(m, iq) <= |m.data| then 0 < Demand(m, iq) == r.jd && r.qnew == m.data[r.jd - 1] && Reads(m, iq) == 0
        else r.jd == |m.data| && r.qnew == m.Qm())
  }

  /** The scan of the next target: the datum it asks for, or else the next quantile. */
  lemma NextPosition(m: Merge, iq: nat)
    requires Unobserved(m) && m.Qm() <= m.qile[Passed(m) + 1] && 1 < iq < |m.pval|
    requires Positioned(m, iq - 1, CursorAt(m, iq - 1))
    ensures var p, r := CursorAt(m, iq - 1), CursorAt(m, iq);
            if Demand(m, iq) <= |m.data| then Positioned(m, iq, r)
            else if p.jq == |m.qile| then r == Cursor(p.jd, p.jq, 0.0, 0.0, p.qnew, p.qnew)
            else && r.jd == |m.data| && r.jq == p.jq + 1 && r.qold == m.Qm() && r.qnew == m.qile[p.jq]
                 && r.told < m.Target(iq) <= r.tnew
  {
    hide Probabilities, Sorted, Advance, ReadNext, Passed;
    var target, p := m.Target(iq), CursorAt(m, iq - 1);
    TargetRange(m, iq);
    DemandGrows(m, iq - 1);
    var c := Cursor(p.jd, p.jq, 0.0, 0.0, p.qnew, p.qnew);
    assert CursorAt(m, iq) == Advance(m, target, c);
    if p.jq < |m.qile| {
      CountData(m, target, c, 0, |m.data|);
      if c.jd + Ask(m, iq) > |m.data| {
        ReadPastData(m, target, CursorUpTo(m, c, 0, |m.data|));
      }
    } else {
      NothingLeft(m, target, c);
    }
  }

  lemma {:induction false} FlatPosition(m: Merge, iq: nat)
    requires Unobserved(m) && m.Qm() <= m.qile[Passed(m) + 1] && 1 <= iq < |m.pval| && FlatFor(m, Reads(m, iq))
    ensures Positioned(m, iq, CursorAt(m, iq))
  {
    hide Advance, Interpolate, Probabilities, Sorted, CursorAt, Passed;
    if iq == 1 {
      FirstCursor(m);
      FirstPasses(m);
    } else {
      FlatPosition(m, iq - 1);
      NextPosition(m, iq);
    }
  }

  /** If a target finds no datum, the next quantile is read; so a flat one is the batch maximum. */
  lemma UndisturbedIsNext(m: Merge)
    requires Unobserved(m) && Undisturbed(m) && Reads(m, |m.qile| - 2) >= 1
    ensures m.Qm() <= m.qile[Passed(m) + 1]
  {
  }

  lemma FlatAsFirst(m: Merge)
    requires Unobserved(m) && Undisturbed(m) && Reads(m, |m.qile| - 2) >= 1
    ensures AsFirst(m)
  {
    UndisturbedIsNext(m);
    forall iq | 1 <= iq < |m.qile| - 1
      ensures 0 <= FirstIndex(m, iq) && NewQuantile(m, iq) == m.data[FirstIndex(m, iq)]
    {
      ReadsRise(m, iq, |m.qile| - 2);
      FlatPosition(m, iq);
      FirstIndexRange(m, iq);
      InterpolateBetween(CursorAt(m, iq), m.Target(iq));
    }
  }

  // ---------------------------------------------------------------- a quantile off the batch maximum

  /** Interpolation from x towards any other value leaves x, on the side of that value. */
  lemma InterpolateAway(c: Cursor, target: real)
    requires c.told < target <= c.tnew && c.qnew != c.qold
    ensures if c.qnew > c.qold then Interpolate(c, target) > c.qold else Interpolate(c, target) < c.qold
  {
    var num, den, d := target - c.told, c.tnew - c.told, c.qnew - c.qold;
    var f := num / den;
    QuotientPositive(num, den);
    ScaledFraction(d, num, den, f, f * d);
    if d > 0.0 {
      MulLt(f, 0.0, d, 0.0, f * d);
    } else {
      MulLt(f, d, 0.0, f * d, 0.0);
    }
  }

  /** The first quantile off the batch maximum that a target without a datum reads shows in its answer. */
  lemma {:induction false} OffIsRead(m: Merge, iq: nat) returns (i: nat, j: nat)
    requires Unobserved(m) && m.Qm() <= m.qile[Passed(m) + 1] && iq < |m.qile| - 1 && !FlatFor(m, Reads(m, iq))
    ensures 1 <= i <= iq && Demand(m, i) > |m.data|
    ensures Passed(m) < j <= Passed(m) + Reads(m, iq) && j < |m.qile| - 1 && m.qile[j] != m.Qm()
    ensures if m.qile[j] > m.Qm() then NewQuantile(m, i) > m.Qm() else NewQuantile(m, i) < m.Qm()
  {
    hide Advance, Interpolate, Probabilities, Sorted, Demand, CursorAt, Passed;
    if !FlatFor(m, Reads(m, iq - 1)) {
      i, j := OffIsRead(m, iq - 1);
    } else {
      i, j := iq, Passed(m) + Reads(m, iq);
      FirstReads(m);
      assert iq > 1;
      FlatPosition(m, iq - 1);
      NextPosition(m, iq);
      InterpolateAway(CursorAt(m, iq), m.Target(iq));
    }
  }

  lemma FirstReads(m: Merge)
    requires Unobserved(m)
    ensures Reads(m, 1) == 0 && FlatFor(m, 0)
  {
    FirstCursor(m);
    assert Reads(m, 0) == 0;
  }

  // ---------------------------------------------------------------- a quantile inside the batch

  /** What the targets ask for is spread enough to tell the answers apart. */
  ghost predicate Spread(m: Merge)
    requires Unobserved(m)
  {
    && |m.data| <= Demand(m, |m.qile| - 2)
    && forall iq :: 2 <= iq < |m.qile| - 1 && Demand(m, iq - 1) < |m.data| ==>
         m.Target(iq) <= Demand(m, iq - 1) as real || (Increasing(m.data) && Ask(m, iq) < |m.data|)
  }

  /** Datum number k is the first above x. */
  ghost predicate Cuts(m: Merge, x: real, k: nat) {
    0 < k < |m.data| && m.data[k - 1] <= x < m.data[k]
  }

  lemma {:induction false} FindCut(m: Merge, x: real, from: nat) returns (k: nat)
    requires 0 < from <= |m.data| && m.data[from - 1] <= x < m.data[|m.data| - 1]
    ensures from <= k && Cuts(m, x, k)
    decreases |m.data| - from
  {
    if x < m.data[from] {
      k := from;
    } else {
      k := FindCut(m, x, from + 1);
    }
  }

  lemma {:induction false} FindTarget(m: Merge, k: nat, iq: nat) returns (i: nat)
    requires Unobserved(m) && 1 <= iq < |m.pval| && Demand(m, 1) <= k < Demand(m, iq)
    ensures 2 <= i <= iq && Demand(m, i - 1) <= k < Demand(m, i)
  {
    if Demand(m, iq - 1) <= k {
      i := iq;
    } else {
      i := FindTarget(m, k, iq - 1);
    }
  }

  /** Until the data run up to the quantile, nothing is in the way. */
  lemma {:induction false} CursorBeforeCut(m: Merge, k: nat, iq: nat)
    requires Unobserved(m) && Cuts(m, m.qile[Passed(m) + 1], k)
    requires 1 <= iq < |m.pval| && Demand(m, iq) <= k
    ensures var r := CursorAt(m, iq);
            0 < r.jd == Demand(m, iq) && r.jq == Passed(m) + 1 && r.qold == r.qnew == m.data[r.jd - 1]
  {
    hide Advance, ReadNext, Sorted, Probabilities;
    FirstPasses(m);
    FirstCursor(m);
    if iq > 1 {
      TargetRange(m, iq);
      CursorBeforeCut(m, k, iq - 1);
      var p := CursorAt(m, iq - 1);
      var c := Cursor(p.jd, p.jq, 0.0, 0.0, p.qnew, p.qnew);
      assert CursorAt(m, iq) == Advance(m, m.Target(iq), c);
      CountData(m, m.Target(iq), c, 0, k);
    }
  }

  /** The target that reads the quantile counts the data up to it first. */
  lemma CutIsReached(m: Merge, k: nat, iq: nat) returns (u: Cursor)
    requires Unobserved(m) && Cuts(m, m.qile[Passed(m) + 1], k)
    requires 2 <= iq < |m.qile| - 1 && Demand(m, iq - 1) <= k < Demand(m, iq)
    ensures InBounds(m, u) && u.jd == k && u.jq == Passed(m) + 1
    ensures u.told == u.tnew < m.Target(iq) <= |m.data| as real && u.qold == u.qnew == m.data[k - 1]
    ensures CursorAt(m, iq) == Advance(m, m.Target(iq), u)
  {
    hide Advance, ReadNext, Sorted, Probabilities, Interpolate;
    var target, p := m.Target(iq), CursorAt(m, iq - 1);
    TargetRange(m, iq);
    DemandGrows(m, iq - 1);
    CursorBeforeCut(m, k, iq - 1);
    var c := Cursor(p.jd, p.jq, 0.0, 0.0, p.qnew, p.qnew);
    assert CursorAt(m, iq) == Advance(m, target, c);
    CountData(m, target, c, 0, k);
    u := CursorUpTo(m, c, 0, k);
  }

  /** And does not get what it gets on a first batch. */
  lemma CutIsRead(m: Merge, k: nat, iq: nat)
    requires Unobserved(m) && Spread(m) && Cuts(m, m.qile[Passed(m) + 1], k)
    requires 2 <= iq < |m.qile| - 1 && Demand(m, iq - 1) <= k < Demand(m, iq)
    ensures 0 <= FirstIndex(m, iq) && NewQuantile(m, iq) != m.data[FirstIndex(m, iq)]
  {
    hide Advance, Sorted, Probabilities, Passed, Interpolate, CursorAt;
    DemandGrows(m, iq - 1);
    TargetRange(m, iq);
    hide Ask;
    FirstIndexRange(m, iq);
    var u := CutIsReached(m, k, iq);
    ReadCut(m, m.Target(iq), u, k);
    InterpolateBetween(CursorAt(m, iq), m.Target(iq));
    if m.Target(iq) <= k as real {
      CutBelow(m, k, FirstIndex(m, iq));
    }
  }

  lemma CutBelow(m: Merge, k: nat, i: nat)
    requires m.Valid() && k <= i < |m.data|
    ensures m.data[k] <= m.data[i]
  {
  }

  /** Reading the quantile either answers the target there, or corrects the rank. */
  lemma ReadCut(m: Merge, target: real, u: Cursor, k: nat)
    requires Unobserved(m) && InBounds(m, u) && u.jd == k && u.jq < |m.qile| && Cuts(m, m.qile[u.jq], k)
    requires u.told == u.tnew < target <= |m.data| as real && u.qold == u.qnew == m.data[k - 1]
    ensures var r := Advance(m, target, u);
            if target <= k as real then r == Cursor(k, u.jq + 1, u.told, k as real, u.qnew, m.qile[u.jq]) && Bracketed(r, target)
            else Ceil(target) > 0 && r.qold == r.qnew == m.data[Ceil(target) - 1] && Bracketed(r, target)
  {
    hide Probabilities, Interpolate;
    NoShare(m, u.jq);
    hide Sorted;
    var x := m.qile[u.jq];
    assert ReadNext(m, target, u) == ReadQuantile(m, target, u, k as real);
    AdvanceStep(m, target, u);
    hide Advance, ReadNext;
    if target > k as real {
      CountFromRank(m, target, Cursor(k, u.jq + 1, k as real, k as real, x, x));
    }
  }

  lemma SpreadExhausts(m: Merge)
    requires Unobserved(m) && Spread(m)
    ensures |m.data| <= Demand(m, |m.qile| - 2)
  {
  }

  lemma InsideDisturbs(m: Merge)
    requires Unobserved(m) && Spread(m) && m.qile[Passed(m) + 1] < m.Qm()
    ensures !AsFirst(m)
  {
    hide NewQuantile, Spread, Sorted, Probabilities, Demand;
    var x := m.qile[Passed(m) + 1];
    FirstPasses(m);
    var k := FindCut(m, x, Ask(m, 1));
    assert k < Demand(m, |m.qile| - 2) by { SpreadExhausts(m); }
    var iq := FindTarget(m, k, |m.qile| - 2);
    CutIsRead(m, k, iq);
  }

  /** Left-over quantiles, in whatever order, make no difference exactly if they are undisturbing. */
  lemma AsFirstIff(m: Merge)
    requires Unobserved(m) && Spread(m) && Reads(m, |m.qile| - 2) >= 1
    ensures AsFirst(m) <==> Undisturbed(m)
  {
    hide FlatFor, Spread, NewQuantile, Probabilities;
    if Undisturbed(m) {
      FlatAsFirst(m);
    } else if m.qile[Passed(m) + 1] < m.Qm() {
      InsideDisturbs(m);
    } else {
      var i, j := OffIsRead(m, |m.qile| - 2);
      FirstIndexRange(m, i);
      assert m.data[FirstIndex(m, i)] == m.Qm();
    }
  }
}
