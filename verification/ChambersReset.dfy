/** What is left of the past after a reset of the incremental quantile agent. */
module ChambersReset {
  import opened Reals
  import opened Sorting
  import opened QuantileMerge
  import opened FirstBatch
  import opened MergeOrder
  import opened StaleQuantiles
  import opened Chambers
  import opened ChambersRuns

  /**
   * The agent after a reset and the initialisation of the next estimate: the grid and the count
   * are new, the quantiles stay (see `ChambersEstimator.Reset` and `ChambersEstimator.Estimate`).
   */
  function AfterReset(a: Agent): Agent {
    Agent(a.qile, InitialGrid(), 0)
  }

  ghost predicate Positive(batch: seq<real>) {
    |batch| > 0 && forall i :: 0 <= i < |batch| ==> 0.0 < batch[i]
  }

  /**
   * The data are distinct, or the second target asks for no more data than the first, as it does on
   * every batch of at most 1/GridAt(2) data.
   */
  ghost predicate Resolved(m: Merge)
    requires m.Valid() && |m.qile| == NQ
  {
    Increasing(m.data) || |m.data| as real * m.pval[2] <= Ask(m, 1) as real
  }

  // ---------------------------------------------------------------- the grid is spread enough

  lemma NeighboursSum(p: seq<real>, iq: nat)
    requires IsGrid(p) && 3 <= iq <= 92
    ensures p[iq] <= p[iq - 1] + p[iq - 2]
  {
    if iq <= 85 {
      GridLow(iq);
      assert GridAt(iq - 1) == 0.87191909 * GridAt(iq);
      assert GridAt(iq - 2) == 0.87191909 * GridAt(iq - 1);
    } else if iq == 86 {
      assert GridAt(84) == 0.87191909 * GridAt(85) && GridAt(85) == 0.1 && GridAt(86) == 0.11;
    }
  }

  lemma SumOfShares(n: real, p: real, x: real, y: real, np: real, nx: real, ny: real)
    requires 0.0 <= n && p <= x + y && np == n * p && nx == n * x && ny == n * y
    ensures np <= nx + ny
  {
    MulLe(n, p, x + y, np, nx + ny);
  }

  lemma TwoTargets(m: Merge, iq: nat)
    requires Unobserved(m) && |m.qile| == NQ && IsGrid(m.pval) && 3 <= iq <= 92
    ensures m.Target(iq) <= Demand(m, iq - 1) as real
  {
    hide GridAt, Probabilities;
    NeighboursSum(m.pval, iq);
    SumOfShares(|m.data| as real, m.pval[iq], m.pval[iq - 1], m.pval[iq - 2],
                m.Target(iq), m.Target(iq - 1), m.Target(iq - 2));
    LastTwo(m, iq);
  }

  lemma LastTwo(m: Merge, iq: nat)
    requires Unobserved(m) && 3 <= iq < |m.pval|
    ensures m.Target(iq - 1) + m.Target(iq - 2) <= Demand(m, iq - 1) as real
  {
    CeilProperty(m.Target(iq - 1));
    CeilProperty(m.Target(iq - 2));
    DemandGrows(m, iq - 3);
    assert Demand(m, iq - 2) == Demand(m, iq - 3) + Ask(m, iq - 2);
    assert Demand(m, iq - 1) == Demand(m, iq - 2) + Ask(m, iq - 1);
  }

  lemma SecondAsksLess(m: Merge)
    requires Unobserved(m) && |m.qile| == NQ && IsGrid(m.pval) && |m.data| >= 2
    ensures Ask(m, 2) < |m.data|
  {
    hide GridAt, Probabilities;
    GridLow(2);
    assert m.pval[2] <= 0.1;
    TenthAsksLess(|m.data|, m.pval[2], m.Target(2));
  }

  lemma TenthAsksLess(n: nat, p: real, t: real)
    requires n >= 2 && p <= 0.1 && t == n as real * p
    ensures Ceil(t) < n
  {
    MulLe(n as real, p, 0.1, t, n as real * 0.1);
    CeilProperty(t);
  }

  lemma GridSpread(m: Merge)
    requires Unobserved(m) && |m.qile| == NQ && IsGrid(m.pval) && Resolved(m)
    ensures Spread(m)
  {
    hide Probabilities, GridAt, IsGrid, Demand, SumOfProbabilities;
    DataRunOut(m);
    FirstCursor(m);
    FirstPasses(m);
    forall iq | 2 <= iq < NQ - 1 && Demand(m, iq - 1) < |m.data|
      ensures m.Target(iq) <= Demand(m, iq - 1) as real || (Increasing(m.data) && Ask(m, iq) < |m.data|)
    {
      if iq == 2 {
        SecondAsksLess(m);
      } else {
        if iq > 92 {
          GridSum(m.pval);
          AllDemanded(m, 92);
          DemandRises(m, 92, iq - 1);
        }
        TwoTargets(m, iq);
      }
    }
  }

  // ---------------------------------------------------------------- when a reset is harmless

  lemma SameAsk(n: real, n': real, p: real, p': real)
    requires n == n' && p == p'
    ensures Ceil(n * p) == Ceil(n' * p')
  {
  }

  lemma {:induction false} SameDemand(m: Merge, f: Merge, iq: nat)
    requires m.Valid() && f.Valid() && iq < |m.pval| && m.pval == f.pval && |m.data| == |f.data| && m.nt == f.nt
    ensures Demand(m, iq) == Demand(f, iq)
  {
    assert Ask(m, iq) == Ask(f, iq) by { SameAsk(|m.data| as real, |f.data| as real, m.pval[iq], f.pval[iq]); }
    if iq > 0 {
      SameDemand(m, f, iq - 1);
    }
  }

  /** The agent before the batch: like a new one, but for its quantiles. */
  ghost predicate IsReset(a: Agent) {
    |a.qile| == NQ && a.pval == InitialGrid() && a.nt == 0
  }

  lemma ResetMerge(a: Agent, batch: seq<real>)
    requires IsReset(a) && |batch| > 0
    ensures var m, f := MergeOf(a, batch), MergeOf(Fresh(), batch);
            && Unobserved(m) && IsGrid(m.pval) && Unobserved(f) && f.pval == m.pval && f.data == m.data
  {
    InitialIsGrid();
    MergeSound(a, batch);
    FreshMerge(batch);
  }

  lemma SameStepIff(a: Agent, batch: seq<real>)
    requires IsReset(a) && |batch| > 0 && Regular(batch)
    ensures Unobserved(MergeOf(a, batch))
    ensures AgentStep(a, batch) == AgentStep(Fresh(), batch) <==> AsFirst(MergeOf(a, batch))
  {
    hide IsGrid, NewQuantile, Prepared, Regular, AsFirst;
    ResetMerge(a, batch);
    RegularAsFirst(batch);
    SameRewriteIff(MergeOf(a, batch), MergeOf(Fresh(), batch));
  }

  lemma SameRewriteIff(m: Merge, f: Merge)
    requires Unobserved(m) && Unobserved(f) && |m.qile| == |f.qile| && m.pval == f.pval && m.data == f.data
    requires AsFirst(f)
    ensures Rewritten(m) == Rewritten(f) <==> AsFirst(m)
  {
    hide Interpolate, CursorAt, FirstIndex;
    forall iq | 1 <= iq < |m.qile| - 1
      ensures FirstIndex(f, iq) == FirstIndex(m, iq) && 0 <= FirstIndex(f, iq)
      ensures NewQuantile(f, iq) == m.data[FirstIndex(m, iq)]
    {
      SameIndex(m, f, iq);
    }
    if Rewritten(m) == Rewritten(f) {
      forall iq | 1 <= iq < |m.qile| - 1
        ensures NewQuantile(m, iq) == NewQuantile(f, iq)
      {
        assert Rewritten(m)[iq] == Rewritten(f)[iq];
      }
    }
    if AsFirst(m) {
      assert forall iq :: 0 <= iq < |m.qile| ==> NewQuantile(m, iq) == NewQuantile(f, iq);
    }
  }

  lemma SameIndex(m: Merge, f: Merge, iq: nat)
    requires m.Valid() && f.Valid() && iq < |m.pval| && m.pval == f.pval && |m.data| == |f.data| && m.nt == f.nt
    ensures FirstIndex(m, iq) == FirstIndex(f, iq)
  {
    SameDemand(m, f, iq);
  }

  /**
   * After a reset the agent merges its next batch like a new agent exactly if its stored quantiles,
   * in whatever order, are undisturbing: those that are read by targets without a datum, the
   * first ones not below the datum that answers the first target, all equal the batch maximum.
   */
  lemma ResetHarmlessIff(a: Agent, batch: seq<real>)
    requires IsReset(a) && |batch| > 0 && Regular(batch) && Resolved(MergeOf(a, batch))
    ensures Unobserved(MergeOf(a, batch))
    ensures AgentStep(a, batch) == AgentStep(Fresh(), batch) <==> Undisturbed(MergeOf(a, batch))
  {
    hide Undisturbed, Resolved, AsFirst, Regular, IsGrid, AgentStep, Probabilities, Sorted;
    var m := MergeOf(a, batch);
    ResetMerge(a, batch);
    SameStepIff(a, batch);
    GridSpread(m);
    DataRunOut(m);
    AsFirstIff(m);
  }

  /**
   * A new agent itself, on a first batch of any sign: every target gets the datum that it gets of
   * positive data exactly if the first one gets a positive datum, or the maximum is zero.
   */
  lemma FirstBatchAsFirstIff(batch: seq<real>)
    requires |batch| > 0 && Resolved(MergeOf(Fresh(), batch))
    ensures Unobserved(MergeOf(Fresh(), batch))
    ensures AsFirst(MergeOf(Fresh(), batch)) <==> Regular(batch)
  {
    hide Undisturbed, Resolved, AsFirst, IsGrid, ClearOfZero;
    var m := MergeOf(Fresh(), batch);
    FreshMerge(batch);
    GridSpread(m);
    DataRunOut(m);
    AsFirstIff(m);
    ZeroUndisturbedIff(m);
  }

  /** In particular a reset is harmless if all quantiles are below all data. */
  lemma ResetHarmless(a: Agent, batch: seq<real>)
    requires IsReset(a) && |batch| > 0 && Regular(batch)
    requires forall i, j :: 1 <= i < NQ - 1 && 0 <= j < |batch| ==> a.qile[i] < batch[j]
    ensures AgentStep(a, batch) == AgentStep(Fresh(), batch)
  {
    hide Regular;
    var m := MergeOf(a, batch);
    ResetMerge(a, batch);
    SortSorts(batch);
    assert m.data[0] in multiset(Sort(batch));
    assert m.data[0] in multiset(batch);
    assert IsFirst(m);
    forall iq | 1 <= iq < NQ - 1
      ensures 0 <= FirstIndex(m, iq) && NewQuantile(m, iq) == m.data[FirstIndex(m, iq)]
    {
      FirstQuantiles(m, iq);
    }
    SameStepIff(a, batch);
  }

  /** And harmful if some quantile up to number 157 exceeds the batch. */
  lemma ResetHarmful(a: Agent, batch: seq<real>, j: nat)
    requires IsReset(a) && |batch| > 0 && Regular(batch) && Resolved(MergeOf(a, batch))
    requires 1 <= j <= 157 && a.qile[j] > MergeOf(a, batch).Qm()
    ensures AgentStep(a, batch) != AgentStep(Fresh(), batch)
  {
    hide Regular, Resolved, IsGrid, AgentStep, Undisturbed;
    var m := MergeOf(a, batch);
    ResetHarmlessIff(a, batch);
    ResetMerge(a, batch);
    DataRunOut(m);
    HighDisturbs(m, j);
  }

  lemma HighDisturbs(m: Merge, j: nat)
    requires Unobserved(m) && 1 <= j < |m.qile| - 1 && j <= Reads(m, |m.qile| - 2) && m.qile[j] > m.Qm()
    ensures !Undisturbed(m)
  {
    assert m.data[Ask(m, 1) - 1] <= m.Qm() by { TargetRange(m, 1); }
    assert Passed(m) < j;
  }

  /** A quantile above the batch is not always read: here the last but one is, and the reset is harmless. */
  lemma UnreadQuantileIsHarmless(a: Agent, x: real, v: real)
    requires IsReset(a) && 0.0 < x < v
    requires a.qile[NQ - 2] == v && forall i :: 0 <= i < NQ - 2 ==> a.qile[i] == x
    ensures InteriorSorted(MergeOf(a, [x])) && a.qile[NQ - 2] > MergeOf(a, [x]).Qm()
    ensures AgentStep(a, [x]) == AgentStep(Fresh(), [x])
  {
    hide IsGrid, Probabilities, AgentStep, Prepared, Regular;
    var m := MergeOf(a, [x]);
    OneDatum(a, x);
    ResetMerge(a, [x]);
    PositiveIsRegular([x]);
    TargetRange(m, 1);
    assert Increasing(m.data);
    assert Passed(m) == 0 by { assert m.qile[1] == x; }
    FirstReads(m);
    ReadsAtMost(m, NQ - 2);
    ResetHarmlessIff(a, [x]);
  }

  lemma {:induction false} ReadsAtMost(m: Merge, iq: nat)
    requires Unobserved(m) && 1 <= iq < |m.pval| && Reads(m, 1) == 0
    ensures Reads(m, iq) <= iq - 1
  {
    if iq > 1 {
      ReadsAtMost(m, iq - 1);
    }
  }

  // ---------------------------------------------------------------- resets of agents that have run

  /** For an agent that has run, whatever its batches. */
  lemma ResetAfterRunIff(batches: seq<seq<real>>, batch: seq<real>)
    requires NonEmpty(batches) && |batch| > 0 && Regular(batch)
    requires Resolved(MergeOf(AfterReset(AgentRun(batches)), batch))
    ensures var a := AfterReset(AgentRun(batches));
            && Unobserved(MergeOf(a, batch))
            && (AgentStep(a, batch) == AgentStep(Fresh(), batch) <==> Undisturbed(MergeOf(a, batch)))
  {
    hide Resolved, Undisturbed, AgentStep, Regular;
    ResetHarmlessIff(AfterReset(AgentRun(batches)), batch);
  }

  /** What a first batch of positive data leaves behind: sorted quantiles, the maximum from 92 on. */
  lemma LeftBehind(batch: seq<real>)
    requires Positive(batch)
    ensures var a, m := AgentRun([batch]), MergeOf(Fresh(), batch);
            && Sorted(a.qile) && Within(a.qile, m.Q0(), m.Qm())
            && forall iq :: 92 <= iq < NQ ==> a.qile[iq] == m.Qm()
  {
    hide IsGrid, NewQuantile, Prepared;
    assert [batch][..0] == [] && AgentRun([]) == Fresh();
    var m := MergeOf(Fresh(), batch);
    assert AgentRun([batch]).qile == Rewritten(m);
    PositiveIsRegular(batch);
    RegularAsFirst(batch);
    FirstBatchCovered(batch);
    PositiveMaximum(batch);
    FreshSound();
    StepKeepsOrderIff(Fresh(), batch);
    forall iq | 92 <= iq < NQ
      ensures Rewritten(m)[iq] == m.Qm()
    {
      MaximumFrom92(m, iq);
    }
  }

  lemma PositiveMaximum(batch: seq<real>)
    requires Positive(batch)
    ensures MergeOf(Fresh(), batch).Qm() > 0.0
  {
    SortSorts(batch);
    var s := Sort(batch);
    assert s[|s| - 1] in multiset(s);
    assert s[|s| - 1] in multiset(batch);
  }

  /**
   * One estimate, a reset, and a lower batch: the agent does not do what a new one does.  The
   * larger batch maximum that the first estimate left in its quantiles is read again.
   */
  lemma ResetRemembers(batch: seq<real>, batch': seq<real>)
    requires Positive(batch) && Positive(batch')
    requires MergeOf(Fresh(), batch).Qm() > MergeOf(Fresh(), batch').Qm()
    requires Resolved(MergeOf(Fresh(), batch'))
    ensures AgentStep(AfterReset(AgentRun([batch])), batch') != AgentStep(Fresh(), batch')
  {
    hide Prepared, AgentRun, AgentStep, Resolved, Within, Regular, Sorted, IsGrid, Probabilities;
    LeftBehind(batch);
    var a := AfterReset(AgentRun([batch]));
    ResetMerge(a, batch');
    PositiveIsRegular(batch');
    SameResolved(MergeOf(a, batch'), MergeOf(Fresh(), batch'));
    ResetHarmful(a, batch', 157);
  }

  /** A higher batch after the reset does not notice what was before. */
  lemma ResetForgets(batch: seq<real>, batch': seq<real>)
    requires Positive(batch) && Positive(batch')
    requires MergeOf(Fresh(), batch).Qm() < MergeOf(Fresh(), batch').Q0()
    ensures AgentStep(AfterReset(AgentRun([batch])), batch') == AgentStep(Fresh(), batch')
  {
    hide AgentRun, AgentStep, Regular;
    LeftBehind(batch);
    PositiveIsRegular(batch');
    forall j | 0 <= j < |batch'|
      ensures MergeOf(Fresh(), batch').Q0() <= batch'[j]
    {
      LeastDatum(batch', j);
    }
    ResetHarmless(AfterReset(AgentRun([batch])), batch');
  }

  lemma LeastDatum(batch: seq<real>, j: nat)
    requires j < |batch|
    ensures MergeOf(Fresh(), batch).Q0() <= batch[j]
  {
    SortSorts(batch);
    assert batch[j] in multiset(batch);
    assert batch[j] in multiset(Sort(batch));
  }

  lemma SameResolved(m: Merge, f: Merge)
    requires m.Valid() && f.Valid() && |m.qile| == |f.qile| == NQ
    requires m.pval == f.pval && m.data == f.data && m.nt == f.nt
    ensures Resolved(m) <==> Resolved(f)
  {
    assert Ask(m, 1) == Ask(f, 1);
  }

  /** For instance one datum x after a higher one v: the second quantile of the new batch is above all its data. */
  lemma ResetLeavesQuantiles(v: real, x: real)
    requires 0.0 < x < v
    ensures AgentStep(AfterReset(AgentRun([[v]])), [x]).qile[2] > x
    ensures AgentStep(Fresh(), [x]).qile[2] == x
  {
    assert [[v]][..0] == [] && AgentRun([]) == Fresh();
    SingleBatch(Fresh(), v);
    SingleBatch(Fresh(), x);
    StaleAgent(AfterReset(AgentRun([[v]])), v, x);
  }

  lemma StaleAgent(a: Agent, v: real, x: real)
    requires IsReset(a) && 0.0 < x < v && a.qile[1] == v
    ensures AgentStep(a, [x]).qile[2] > x
  {
    ResetMerge(a, [x]);
    OneDatum(a, x);
    StaleQuantile(MergeOf(a, [x]), x, v);
  }

  lemma StaleQuantile(m: Merge, x: real, v: real)
    requires Unobserved(m) && |m.qile| == NQ && m.data == [x] && x < v && m.qile[1] == v
    ensures Rewritten(m)[2] > x
  {
    FirstCursor(m);
    TargetRange(m, 2);
    var c := Cursor(1, 1, 0.0, 0.0, x, x);
    assert CursorAt(m, 2) == Advance(m, m.Target(2), c);
    ReadPastData(m, m.Target(2), c);
    InterpolateAbove(CursorAt(m, 2), m.Target(2), x);
  }
}
