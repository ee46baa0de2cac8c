/** Whole runs of the incremental quantile agent: a fresh agent, then one batch per estimate. */
module ChambersRuns {
  import opened Reals
  import opened Sorting
  import opened QuantileMerge
  import opened FirstBatch
  import opened MergeOrder
  import opened StaleQuantiles
  import opened Quantiles
  import opened Chambers

  /** The agent between two estimates (see `ChambersEstimator.Estimate`). */
  datatype Agent = Agent(qile: seq<real>, pval: seq<real>, nt: nat)

  function Zeros(n: nat): (z: seq<real>)
    ensures |z| == n && forall i :: 0 <= i < n ==> z[i] == 0.0
  {
    seq(n, _ => 0.0)
  }

  function Fresh(): Agent {
    Agent(Zeros(NQ), InitialGrid(), 0)
  }

  ghost predicate Sound(a: Agent) {
    |a.qile| == NQ && IsGrid(a.pval)
  }

  function MergeOf(a: Agent, batch: seq<real>): (m: Merge)
    requires |a.qile| == |a.pval| == NQ && |batch| > 0
    ensures m.Valid() && |m.qile| == NQ && m.nt == a.nt && |m.data| == |batch|
    ensures forall i :: 1 <= i < NQ - 1 ==> m.qile[i] == a.qile[i]
  {
    Prepared(a.qile, a.pval, batch, a.nt)
  }

  lemma MergeSound(a: Agent, batch: seq<real>)
    requires Sound(a) && |batch| > 0
    ensures IsGrid(MergeOf(a, batch).pval) && Probabilities(MergeOf(a, batch).pval)
  {
    PreparedIsGrid(a.qile, a.pval, batch, a.nt);
    GridShape(MergeOf(a, batch).pval);
  }

  lemma FreshSound()
    ensures Sound(Fresh())
  {
    InitialIsGrid();
  }

  function AgentStep(a: Agent, batch: seq<real>): (a': Agent)
    requires |a.qile| == |a.pval| == NQ && |batch| > 0
    ensures |a'.qile| == |a'.pval| == NQ
  {
    var m := MergeOf(a, batch);
    Agent(Rewritten(m), m.pval, a.nt + |batch|)
  }

  ghost predicate NonEmpty(batches: seq<seq<real>>) {
    forall i :: 0 <= i < |batches| ==> |batches[i]| > 0
  }

  function AgentRun(batches: seq<seq<real>>): (a: Agent)
    requires NonEmpty(batches)
    ensures |a.qile| == |a.pval| == NQ
  {
    if |batches| == 0 then Fresh() else AgentStep(AgentRun(batches[..|batches| - 1]), batches[|batches| - 1])
  }

  function Flat(batches: seq<seq<real>>): seq<real> {
    if |batches| == 0 then [] else Flat(batches[..|batches| - 1]) + batches[|batches| - 1]
  }

  /** A run counts all observations, and its quantiles end at the extremes of the last batch alone. */
  lemma {:induction false} RunCounts(batches: seq<seq<real>>)
    requires NonEmpty(batches)
    ensures AgentRun(batches).nt == |Flat(batches)|
    ensures |batches| > 0 ==>
              var a, last := AgentRun(batches), batches[|batches| - 1];
              && a.qile[0] in last && a.qile[NQ - 1] in last
              && forall k :: 0 <= k < |last| ==> a.qile[0] <= last[k] <= a.qile[NQ - 1]
  {
    hide Rewritten, Prepared;
    if |batches| > 0 {
      var front, last := batches[..|batches| - 1], batches[|batches| - 1];
      RunCounts(front);
      BatchEnds(AgentRun(front), last);
    }
  }

  lemma BatchEnds(a: Agent, batch: seq<real>)
    requires |a.qile| == |a.pval| == NQ && |batch| > 0
    ensures var q := AgentStep(a, batch).qile;
            && q[0] in batch && q[NQ - 1] in batch
            && forall k :: 0 <= k < |batch| ==> q[0] <= batch[k] <= q[NQ - 1]
  {
    var m := MergeOf(a, batch);
    EndsOf(m);
    assert m.data == Sort(batch);
    SortSorts(batch);
    var q := AgentStep(a, batch).qile;
    assert q[0] == Sort(batch)[0] && q[NQ - 1] == Sort(batch)[|batch| - 1];
    SortedBounds(batch);
  }

  lemma SortedBounds(batch: seq<real>)
    requires |batch| > 0
    ensures var s := Sort(batch);
            && |s| == |batch| && s[0] in batch && s[|s| - 1] in batch
            && forall k :: 0 <= k < |batch| ==> s[0] <= batch[k] <= s[|s| - 1]
  {
    SortSorts(batch);
    var s := Sort(batch);
    assert s[0] in multiset(s) && s[|s| - 1] in multiset(s);
    assert s[0] in multiset(batch) && s[|s| - 1] in multiset(batch);
    forall k | 0 <= k < |batch|
      ensures s[0] <= batch[k] <= s[|s| - 1]
    {
      assert batch[k] in multiset(batch);
      assert batch[k] in multiset(s);
    }
  }

  /** In every run the probabilities keep the shape of the grid (see `Chambers.GridShape`). */
  lemma {:induction false} RunKeepsGrid(batches: seq<seq<real>>)
    requires NonEmpty(batches)
    ensures Sound(AgentRun(batches))
  {
    if |batches| == 0 {
      InitialIsGrid();
    } else {
      var front := batches[..|batches| - 1];
      RunKeepsGrid(front);
      var a := AgentRun(front);
      PreparedIsGrid(a.qile, a.pval, batches[|batches| - 1], a.nt);
    }
  }

  /** The batch reaches down far enough, and no stored quantile above it is read. */
  ghost predicate Covered(a: Agent, batch: seq<real>)
    requires |a.qile| == |a.pval| == NQ && |batch| > 0
  {
    var m := MergeOf(a, batch);
    OldRankBelow(m) <= m.Target(1) && StaysInside(m)
  }

  /** A merge keeps sorted quantiles sorted, and inside the batch, exactly if the batch covers them. */
  lemma StepKeepsOrderIff(a: Agent, batch: seq<real>)
    requires Sound(a) && Sorted(a.qile) && |batch| > 0
    ensures var m := MergeOf(a, batch);
            Sorted(Rewritten(m)) && Within(Rewritten(m), m.Q0(), m.Qm()) <==> Covered(a, batch)
  {
    hide Prepared;
    var m := MergeOf(a, batch);
    MergeSound(a, batch);
    InteriorOfSorted(a, m);
    OrderedIff(m);
  }

  lemma InteriorOfSorted(a: Agent, m: Merge)
    requires |a.qile| == |m.qile| == NQ && Sorted(a.qile)
    requires forall i :: 1 <= i < NQ - 1 ==> m.qile[i] == a.qile[i]
    ensures InteriorSorted(m)
  {
  }

  ghost predicate CoveredRun(batches: seq<seq<real>>)
    requires NonEmpty(batches)
  {
    |batches| == 0
    || (CoveredRun(batches[..|batches| - 1]) && Covered(AgentRun(batches[..|batches| - 1]), batches[|batches| - 1]))
  }

  /** After every batch of the run, the quantiles are sorted and inside that batch. */
  ghost predicate OrderedRun(batches: seq<seq<real>>)
    requires NonEmpty(batches)
  {
    |batches| == 0
    || (OrderedRun(batches[..|batches| - 1])
        && var m := MergeOf(AgentRun(batches[..|batches| - 1]), batches[|batches| - 1]);
           Sorted(AgentRun(batches).qile) && Within(AgentRun(batches).qile, m.Q0(), m.Qm()))
  }

  /** Over a whole run the quantiles keep in order exactly if every batch covers what is stored. */
  lemma {:induction false} RunKeepsOrderIff(batches: seq<seq<real>>)
    requires NonEmpty(batches)
    ensures OrderedRun(batches) <==> CoveredRun(batches)
    ensures CoveredRun(batches) ==> Sorted(AgentRun(batches).qile)
  {
    hide Covered, Rewritten, Prepared, Within;
    if |batches| > 0 {
      var front := batches[..|batches| - 1];
      RunKeepsOrderIff(front);
      RunKeepsGrid(front);
      if CoveredRun(front) {
        StepKeepsOrderIff(AgentRun(front), batches[|batches| - 1]);
      }
    }
  }

  /** A first batch is covered exactly when its maximum is not negative: the quantiles start at zero. */
  lemma FirstBatchCovered(batch: seq<real>)
    requires |batch| > 0
    ensures Covered(Fresh(), batch) <==> MergeOf(Fresh(), batch).Qm() >= 0.0
  {
    var m := MergeOf(Fresh(), batch);
    FreshRank(batch);
    FreshSound();
    MergeSound(Fresh(), batch);
    if m.Qm() >= 0.0 {
      NoneAbove(m);
    } else {
      NegativeBatch(m);
    }
  }

  /** The zero quantiles above a negative batch are read, since the data run out. */
  lemma NegativeBatch(m: Merge)
    requires Unobserved(m) && |m.qile| == NQ && IsGrid(m.pval) && m.Qm() < 0.0 && ZeroInside(m)
    ensures !StaysInside(m)
  {
    hide GridAt, IsGrid, Probabilities, NewQuantile, CursorAt, Undisturbed;
    DataRunOut(m);
    ZeroPasses(m);
    ZeroUndisturbedIff(m);
    assert !FlatFor(m, Reads(m, NQ - 2)) by { UndisturbedIs(m); }
    var i, j := OffIsRead(m, NQ - 2);
    assert Rewritten(m)[i] > m.Qm();
    OldRankZero(m);
    TargetPositive(m, 1);
    OrderedIff(m);
  }

  /** The quantiles of a new agent. */
  ghost predicate ZeroInside(m: Merge) {
    forall j :: 1 <= j < |m.qile| - 1 ==> m.qile[j] == 0.0
  }

  lemma ZeroPasses(m: Merge)
    requires Unobserved(m) && |m.qile| == NQ && ZeroInside(m)
    ensures 1 <= Ask(m, 1) <= |m.data|
    ensures Passed(m) == if m.data[Ask(m, 1) - 1] > 0.0 then NQ - 2 else 0
  {
    TargetRange(m, 1);
    assert m.qile[1] == 0.0;
    assert Passed(m) < NQ - 2 ==> m.qile[Passed(m) + 1] == 0.0;
    assert Passed(m) > 0 ==> m.qile[Passed(m)] == 0.0;
  }

  lemma UndisturbedIs(m: Merge)
    requires Unobserved(m)
    ensures Undisturbed(m) <==> FlatFor(m, Reads(m, |m.qile| - 2))
  {
  }

  /** The first target is answered by a positive datum, or the batch maximum is zero. */
  ghost predicate ClearOfZero(m: Merge)
    requires Unobserved(m)
  {
    TargetRange(m, 1);
    m.data[Ask(m, 1) - 1] > 0.0 || m.Qm() == 0.0
  }

  lemma ZeroUndisturbedIff(m: Merge)
    requires Unobserved(m) && |m.qile| == NQ && IsGrid(m.pval) && ZeroInside(m)
    ensures Undisturbed(m) <==> ClearOfZero(m)
  {
    hide Probabilities, Sorted, IsGrid;
    ZeroPasses(m);
    DataRunOut(m);
    assert m.qile[1] == 0.0;
  }

  /** From the 93rd target on, none finds a datum left when nothing was observed before. */
  lemma {:induction false} ReadsFrom93(m: Merge, iq: nat)
    requires Unobserved(m) && |m.qile| == NQ && IsGrid(m.pval) && 92 <= iq < NQ - 1
    ensures Reads(m, iq) >= iq - 92
  {
    if iq > 92 {
      ReadsFrom93(m, iq - 1);
      GridSum(m.pval);
      AllDemanded(m, 92);
      DemandRises(m, 92, iq - 1);
      TargetRange(m, iq);
    }
  }

  lemma DataRunOut(m: Merge)
    requires Unobserved(m) && |m.qile| == NQ && IsGrid(m.pval)
    ensures Reads(m, NQ - 2) >= 157 && |m.data| <= Demand(m, NQ - 2)
  {
    ReadsFrom93(m, NQ - 2);
    GridSum(m.pval);
    AllDemanded(m, 92);
    DemandRises(m, 92, NQ - 2);
  }

  lemma FreshRank(batch: seq<real>)
    requires |batch| > 0
    ensures var m := MergeOf(Fresh(), batch);
            OldRankBelow(m) <= m.Target(1)
  {
    FreshSound();
    MergeSound(Fresh(), batch);
    TargetPositive(MergeOf(Fresh(), batch), 1);
    OldRankZero(MergeOf(Fresh(), batch));
  }

  /** Two single observations, the second higher, already break the order. */
  lemma NarrowBatchBreaksOrder(x: real, y: real)
    requires 0.0 < x < y
    ensures var m := MergeOf(AgentRun([[x]]), [y]);
            !Within(Rewritten(m), m.Q0(), m.Qm())
  {
    var a := AgentRun([[x]]);
    assert [[x]][..0] == [] && AgentRun([]) == Fresh();
    SingleBatch(Fresh(), x);
    RunKeepsGrid([[x]]);
    HigherDatum(a, x, y);
  }

  /** So do two of which the second is lower, although nothing is ranked below it. */
  lemma LowerBatchBreaksOrder(x: real, y: real)
    requires 0.0 < x < y
    ensures var m := MergeOf(AgentRun([[y]]), [x]);
            OldRankBelow(m) <= m.Target(1) && !Within(Rewritten(m), m.Q0(), m.Qm())
  {
    var a := AgentRun([[y]]);
    assert [[y]][..0] == [] && AgentRun([]) == Fresh();
    SingleBatch(Fresh(), y);
    RunKeepsGrid([[y]]);
    LowerDatum(a, y, x);
  }

  lemma LowerDatum(a: Agent, y: real, x: real)
    requires Sound(a) && x < y && forall i :: 0 <= i < NQ ==> a.qile[i] == y
    ensures var m := MergeOf(a, [x]);
            OldRankBelow(m) <= m.Target(1) && !Within(Rewritten(m), m.Q0(), m.Qm())
  {
    var m := MergeOf(a, [x]);
    OneDatum(a, x);
    MergeSound(a, [x]);
    LowCountNone(m);
    TargetPositive(m, 1);
    assert FirstAbove(m) == 1 by { assert m.qile[1] > m.Qm(); }
    FewDataReachAbove(m);
    AboveBreaksRange(m);
  }

  /**
   * In general, what decides at the top is on the inputs when the last target is out of reach of the
   * batch maximum: the range breaks, however many data there are.
   */
  lemma TopOutOfReach(a: Agent, batch: seq<real>)
    requires Sound(a) && Sorted(a.qile) && |batch| > 0
    requires var m := MergeOf(a, batch);
             FirstAbove(m) < NQ && m.Target(NQ - 2) > |batch| as real + OldRankOfMax(m)
    ensures !Covered(a, batch)
    ensures var m := MergeOf(a, batch);
            !Within(Rewritten(m), m.Q0(), m.Qm())
  {
    hide FirstAbove, OldRankOfMax, Within, Rewritten, InteriorSorted;
    var m := MergeOf(a, batch);
    MergeSound(a, batch);
    InteriorOfSorted(a, m);
    LastTargetReachesAbove(m);
  }

  /** And a batch with fewer data than there are stored quantiles above it breaks the order. */
  lemma NarrowBatchAtTheTop(a: Agent, batch: seq<real>)
    requires Sound(a) && Sorted(a.qile) && |batch| > 0
    requires |batch| < NQ - 1 - FirstAbove(MergeOf(a, batch))
    ensures var m := MergeOf(a, batch);
            !Within(Rewritten(m), m.Q0(), m.Qm())
  {
    var m := MergeOf(a, batch);
    MergeSound(a, batch);
    InteriorOfSorted(a, m);
    FewDataReachAbove(m);
    AboveBreaksRange(m);
  }

  lemma HigherDatum(a: Agent, x: real, y: real)
    requires Sound(a) && a.nt == 1 && x < y && forall i :: 0 <= i < NQ ==> a.qile[i] == x
    ensures var m := MergeOf(a, [y]);
            !Within(Rewritten(m), m.Q0(), m.Qm())
  {
    var m := MergeOf(a, [y]);
    OneDatum(a, y);
    MergeSound(a, [y]);
    LowCountAll(m);
    assert m.qile[NQ - 2] == x;
    HighRank(m, y);
    FirstTarget(m);
    assert Rewritten(m)[1] < m.Q0();
  }

  lemma HighRank(m: Merge, y: real)
    requires m.Valid() && |m.qile| == NQ && m.data == [y] && m.nt == 1 && IsGrid(m.pval) && Probabilities(m.pval)
    requires LowCount(m) == NQ - 2 && m.qile[NQ - 2] < y
    ensures OldRankBelow(m) > m.Target(1)
  {
    hide GridAt;
    PortionPositive(m, NQ - 1, m.qile[NQ - 2], y);
    LowGridSum(m.pval);
    assert m.OldShare(NQ - 2) == m.pval[NQ - 2] && m.Target(1) == 2.0 * m.pval[1];
  }

  lemma LowGridSum(p: seq<real>)
    requires IsGrid(p)
    ensures 2.0 * p[1] <= p[NQ - 2]
  {
    GridLow(1);
    assert GridAt(249) == 1.0 - GridAt(1);
  }

  lemma OneDatum(a: Agent, x: real)
    requires |a.qile| == |a.pval| == NQ
    ensures MergeOf(a, [x]).data == [x]
  {
    SortSorts([x]);
    var s := Sort([x]);
    assert s[0] in multiset(s);
    assert s[0] in multiset([x]);
  }

  /** A single positive observation makes all quantiles equal to it. */
  lemma SingleBatch(a: Agent, x: real)
    requires a == Fresh() && x > 0.0
    ensures forall i :: 0 <= i < NQ ==> AgentStep(a, [x]).qile[i] == x
  {
    var m := MergeOf(a, [x]);
    OneDatum(a, x);
    FreshSound();
    MergeSound(a, [x]);
    forall i | 1 <= i < NQ - 1
      ensures Rewritten(m)[i] == x
    {
      FirstQuantiles(m, i);
    }
  }

  // ---------------------------------------------------------------- the first estimate

  lemma {:induction false} SumNonNegative(p: seq<real>, k: nat)
    requires Probabilities(p) && k < |p|
    ensures 0.0 <= SumOfProbabilities(p, k)
  {
    if k > 0 {
      SumNonNegative(p, k - 1);
    }
  }

  lemma GridTerm(p: seq<real>, k: nat, x: real)
    requires IsGrid(p) && 85 <= k <= 165 && x == (k - 75) as real / 100.0
    ensures SumOfProbabilities(p, k) == SumOfProbabilities(p, k - 1) + x
  {
    assert p[k] == GridAt(k);
  }

  /** The probabilities 0.10 to 0.17 alone exceed one. */
  lemma GridSum(p: seq<real>)
    requires IsGrid(p)
    ensures SumOfProbabilities(p, 92) >= 1.0
  {
    hide SumOfProbabilities, Probabilities;
    GridShape(p);
    SumNonNegative(p, 84);
    GridTerm(p, 85, 0.10);
    GridTerm(p, 86, 0.11);
    GridTerm(p, 87, 0.12);
    GridTerm(p, 88, 0.13);
    GridTerm(p, 89, 0.14);
    GridTerm(p, 90, 0.15);
    GridTerm(p, 91, 0.16);
    GridTerm(p, 92, 0.17);
  }

  lemma {:induction false} SumRises(p: seq<real>, i: nat, j: nat)
    requires Probabilities(p) && i <= j < |p|
    ensures SumOfProbabilities(p, i) <= SumOfProbabilities(p, j)
  {
    if i < j {
      SumRises(p, i, j - 1);
    }
  }

  // ---------------------------------------------------------------- the first batch, of any sign

  lemma FreshMerge(batch: seq<real>)
    requires |batch| > 0
    ensures var m := MergeOf(Fresh(), batch);
            Unobserved(m) && IsGrid(m.pval) && ZeroInside(m) && m.data == Sort(batch) && m.Q0() <= m.Qm()
  {
    hide IsGrid, Probabilities, Sorted, Fresh, MergeOf, ZeroInside;
    FreshParts(batch);
    FreshSound();
    MergeSound(Fresh(), batch);
    SortedEnds(MergeOf(Fresh(), batch));
  }

  lemma FreshParts(batch: seq<real>)
    requires |batch| > 0
    ensures Fresh().nt == 0 && |Fresh().qile| == |Fresh().pval| == NQ
    ensures MergeOf(Fresh(), batch).data == Sort(batch) && ZeroInside(MergeOf(Fresh(), batch))
  {
    hide Sort;
  }

  lemma SortedEnds(m: Merge)
    requires m.Valid()
    ensures m.Q0() <= m.Qm()
  {
  }

  /** A new agent merges these batches without being disturbed by its zeros. */
  ghost predicate Regular(batch: seq<real>)
    requires |batch| > 0
  {
    FreshMerge(batch);
    ClearOfZero(MergeOf(Fresh(), batch))
  }

  lemma RegularAsFirst(batch: seq<real>)
    requires |batch| > 0 && Regular(batch)
    ensures var m := MergeOf(Fresh(), batch);
            Unobserved(m) && IsGrid(m.pval) && AsFirst(m)
  {
    hide ClearOfZero, Undisturbed, AsFirst, IsGrid;
    var m := MergeOf(Fresh(), batch);
    FreshMerge(batch);
    ZeroUndisturbedIff(m);
    DataRunOut(m);
    FlatAsFirst(m);
  }

  lemma PositiveIsRegular(batch: seq<real>)
    requires |batch| > 0 && forall i :: 0 <= i < |batch| ==> 0.0 < batch[i]
    ensures Regular(batch)
  {
    hide IsGrid;
    var m := MergeOf(Fresh(), batch);
    FreshMerge(batch);
    PositiveIsFirst(batch);
    TargetRange(m, 1);
    assert m.qile[1] == 0.0;
    assert m.Q0() <= m.data[Ask(m, 1) - 1];
  }

  /**
   * After a regular first batch, however large, the agent answers every probability above 0.17 - the
   * median included - with the batch maximum.
   */
  lemma FirstEstimateIsMaximum(batch: seq<real>, prob: real, j: nat)
    requires |batch| > 0 && Regular(batch) && prob > 0.17
    requires IsCell(MergeOf(Fresh(), batch).pval, prob, j)
    ensures var m := MergeOf(Fresh(), batch);
            && m.pval[j] != m.pval[j + 1]
            && EstimateAt(Rewritten(m), m.pval, prob, j) == m.Qm()
  {
    hide Regular, AsFirst;
    var m := MergeOf(Fresh(), batch);
    RegularAsFirst(batch);
    FarCell(m.pval, prob, j);
    MaximumFrom92(m, j);
    MaximumFrom92(m, j + 1);
    MaximumInside(m);
    FlatCell(prob, m.pval[j], m.pval[j + 1], m.Qm());
  }

  lemma MaximumInside(m: Merge)
    requires m.Valid()
    ensures m.Q0() <= m.Qm() && Rewritten(m)[0] == m.Q0() && Rewritten(m)[|m.qile| - 1] == m.Qm()
  {
  }

  /**
   * Of a regular first batch of distinct data, a probability above 0.17 is answered with the sample
   * that has its nearest rank only if that rank is the last one.
   */
  lemma FirstEstimateRightIff(batch: seq<real>, prob: real, j: nat)
    requires |batch| > 0 && Regular(batch) && Increasing(Sort(batch)) && 0.17 < prob <= 1.0
    requires IsCell(MergeOf(Fresh(), batch).pval, prob, j)
    ensures var m := MergeOf(Fresh(), batch);
            && m.pval[j] != m.pval[j + 1]
            && (EstimateAt(Rewritten(m), m.pval, prob, j) == NearestRank(batch, prob)
                <==> Ceil(RankOf(|batch|, prob)) == |batch|)
  {
    hide RankOf, EstimateAt, Rewritten, IsCell, GridAt, Regular;
    FirstEstimateIsMaximum(batch, prob, j);
    LastRankIff(batch, prob);
  }

  lemma LastRankIff(batch: seq<real>, prob: real)
    requires |batch| > 0 && Increasing(Sort(batch)) && 0.0 < prob <= 1.0
    ensures |Sort(batch)| == |batch|
    ensures NearestRank(batch, prob) == Sort(batch)[|batch| - 1] <==> Ceil(RankOf(|batch|, prob)) == |batch|
  {
    hide RankOf;
    SortSorts(batch);
    RankInRange(|batch|, prob);
    RankAtMost(|batch|, prob);
  }

  lemma RankAtMost(n: nat, prob: real)
    requires 0.0 < prob <= 1.0
    ensures Ceil(RankOf(n, prob)) <= n
  {
    MulLe(n as real, prob, 1.0, RankOf(n, prob), n as real);
  }

  /** Of two positive data, the median is answered with the higher one instead of the lower. */
  lemma FirstMedianWrong(x: real, y: real, j: nat)
    requires 0.0 < x < y && IsCell(MergeOf(Fresh(), [x, y]).pval, 0.5, j)
    ensures var m := MergeOf(Fresh(), [x, y]);
            && m.pval[j] != m.pval[j + 1]
            && NearestRank([x, y], 0.5) == x && EstimateAt(Rewritten(m), m.pval, 0.5, j) == y
  {
    SortSorts([x, y]);
    SortedUnique(Sort([x, y]), [x, y]);
    PositiveIsRegular([x, y]);
    FirstEstimateIsMaximum([x, y], 0.5, j);
    assert RankOf(2, 0.5) == 1.0;
  }

  lemma PositiveIsFirst(batch: seq<real>)
    requires |batch| > 0 && forall i :: 0 <= i < |batch| ==> 0.0 < batch[i]
    ensures var m := MergeOf(Fresh(), batch);
            IsFirst(m) && IsGrid(m.pval) && m.Q0() <= m.Qm()
  {
    FreshSound();
    MergeSound(Fresh(), batch);
    SortSorts(batch);
    assert Sort(batch)[0] in multiset(Sort(batch));
    assert Sort(batch)[0] in multiset(batch);
  }

  lemma FarCell(p: seq<real>, prob: real, j: nat)
    requires IsGrid(p) && prob > 0.17 && IsCell(p, prob, j)
    ensures j >= 92 && p[j] != p[j + 1]
  {
    assert p[92] == 0.17;
    if j + 1 < 92 {
      GridIncreases(p, j + 1, 92);
    }
    GridIncreases(p, j, j + 1);
  }

  lemma MaximumFrom92(m: Merge, iq: nat)
    requires Unobserved(m) && AsFirst(m) && |m.qile| == NQ && IsGrid(m.pval) && 92 <= iq < NQ
    ensures Rewritten(m)[iq] == m.Qm()
  {
    if iq < NQ - 1 {
      GridSum(m.pval);
      SumRises(m.pval, 92, iq);
      QuantilesCollapse(m, iq);
    }
  }

  lemma FlatCell(x: real, x0: real, x1: real, q: real)
    requires x0 != x1
    ensures LinInterp(x, x0, x1, q, q) == q
  {
    assert (q - q) * (x - x0) == 0.0;
  }
}
