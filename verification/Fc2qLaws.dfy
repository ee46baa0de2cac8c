/** What the FC2Q controller does for its inputs: each rule alone, and from the target to the share. */
module Fc2qLaws {
  import opened Reals
  import opened Fuzzy
  import opened FcmsRules
  import opened FcmsShares
  import opened Fcms
  import opened Fc2q
  import opened FcmsLaws

  // ---------------------------------------------------------------- one rule at a time

  /** Only this term holds of a residual. */
  ghost predicate OnlyCres(t: Residual, x: real) {
    match t case LowRes => x <= 0.10 case FineRes => x == 0.30 case HighRes => x >= 0.40
  }

  /** Only this term holds of a gain. */
  ghost predicate OnlyRgain(t: Error, x: real) {
    match t case Neg => x <= 0.10 case Ok => 0.20 <= x < 0.30 case Pos => x > 0.30
  }

  lemma OnlyInputs(c: Residual, cres: real, e: Error, rgain: real)
    requires OnlyCres(c, cres) && OnlyRgain(e, rgain)
    ensures forall t :: t != c ==> CresDegree(t, cres) == 0.0
    ensures forall t :: t != e ==> RgainDegree(t, rgain) == 0.0
    ensures CresDegree(c, cres) > 0.0 && RgainDegree(e, rgain) > 0.0
  {
    hide CresDegree, RgainDegree;
    forall t: Residual ensures t != c ==> CresDegree(t, cres) == 0.0 {
      CresRange(t, cres);
    }
    forall t: Error ensures t != e ==> RgainDegree(t, rgain) == 0.0 {
      RgainRange(t, rgain);
    }
    CresRange(c, cres);
    RgainRange(e, rgain);
  }

  /** A rule holds as much as the weaker of its premises. */
  lemma Conjunction(cres: real, rgain: real, c: Residual, e: Error)
    ensures var i := 3 * ResidualRank(c) + ErrorRank(e);
            && Weakest(RuleActivation(cres, rgain, i).degree, [CresDegree(c, cres), RgainDegree(e, rgain)])
            && RuleActivation(cres, rgain, i).change == CpuRule(c, e)
  {
    hide CresDegree, RgainDegree;
    var i := 3 * ResidualRank(c) + ErrorRank(e);
    assert RESIDUALS[i / 3] == c && ERRORS[i % 3] == e;
    var d, premises := RuleActivation(cres, rgain, i).degree, [CresDegree(c, cres), RgainDegree(e, rgain)];
    assert d == premises[0] || d == premises[1];
  }

  lemma RuleApplies(points: seq<real>, cres: real, rgain: real, c: Residual, e: Error)
    requires Adequate(points) && OnlyCres(c, cres) && OnlyRgain(e, rgain)
    ensures Outputs(Output(points, cres, rgain), SupportLow(CpuRule(c, e)), SupportHigh(CpuRule(c, e)))
  {
    hide CresDegree, RgainDegree, Adequate;
    OnlyInputs(c, cres, e, rgain);
    RuleDegrees(cres, rgain);
    var acts := Activations(cres, rgain);
    forall i | 0 <= i < 9 && acts[i].degree > 0.0
      ensures acts[i].change == CpuRule(c, e)
    {
      assert CresDegree(RESIDUALS[i / 3], cres) > 0.0 && RgainDegree(ERRORS[i % 3], rgain) > 0.0;
    }
    SomeRuleFires(cres, rgain);
    OutputWithin(acts, points, SupportLow(CpuRule(c, e)), SupportHigh(CpuRule(c, e)), FiringRule(cres, rgain));
  }

  /** All nine rules, by the change of the share that each asks for. */
  lemma RuleTable(points: seq<real>, cres: real, rgain: real)
    requires Adequate(points)
    ensures cres <= 0.10 && rgain <= 0.10 ==> Outputs(Output(points, cres, rgain), 0.10, 1.00)
    ensures cres <= 0.10 && 0.20 <= rgain < 0.30 ==> Outputs(Output(points, cres, rgain), 0.05, 0.20)
    ensures cres <= 0.10 && rgain > 0.30 ==> Outputs(Output(points, cres, rgain), 0.05, 0.20)
    ensures cres == 0.30 && rgain <= 0.10 ==> Outputs(Output(points, cres, rgain), 0.05, 0.20)
    ensures cres == 0.30 && 0.20 <= rgain < 0.30 ==> Outputs(Output(points, cres, rgain), -0.10, 0.10)
    ensures cres == 0.30 && rgain > 0.30 ==> Outputs(Output(points, cres, rgain), -0.20, -0.05)
    ensures cres >= 0.40 && rgain <= 0.10 ==> Outputs(Output(points, cres, rgain), -0.10, 0.10)
    ensures cres >= 0.40 && 0.20 <= rgain < 0.30 ==> Outputs(Output(points, cres, rgain), -0.20, -0.05)
    ensures cres >= 0.40 && rgain > 0.30 ==> Outputs(Output(points, cres, rgain), -1.00, -0.10)
  {
    hide Output, Adequate;
    forall c, e | OnlyCres(c, cres) && OnlyRgain(e, rgain)
      ensures Outputs(Output(points, cres, rgain), SupportLow(CpuRule(c, e)), SupportHigh(CpuRule(c, e)))
    {
      RuleApplies(points, cres, rgain, c, e);
    }
    assert OnlyCres(LowRes, cres) <==> cres <= 0.10;
    assert OnlyCres(FineRes, cres) <==> cres == 0.30;
    assert OnlyCres(HighRes, cres) <==> cres >= 0.40;
    assert OnlyRgain(Neg, rgain) <==> rgain <= 0.10;
    assert OnlyRgain(Ok, rgain) <==> 0.20 <= rgain < 0.30;
    assert OnlyRgain(Pos, rgain) <==> rgain > 0.30;
  }

  // ---------------------------------------------------------------- from the target to the share

  lemma LowResidual(share: real, util: real, cres: real)
    requires share > 0.0 && util >= 0.9 * share && cres == (share - util) / share
    ensures cres <= 0.10
  {
    ResidualSmall(share, util, cres);
  }

  /**
   * A missed target on a machine that uses at least 90% of its share: the share grows by more than
   * a tenth of the host, or up to the whole host.
   */
  lemma MissedTargetGivesShare(points: seq<real>, share: real, util: real, t: Target, tol: real)
    requires Adequate(points) && IsShare(share) && 0.0 <= tol < 0.1
    requires t.reference > 0.0 && Missed(t) && util >= 0.9 * share && share <= 0.9
    ensures share + 0.1 <= Fc2qNext(points, share, util, TargetError(t), tol)
  {
    TargetErrorMeaning(t);
    var rgain, cres := TargetError(t).x, (share - util) / share;
    LowResidual(share, util, cres);
    RuleTable(points, cres, rgain);
    hide Output, TargetError, Apply, DeltaOf;
    ApplyGrows(share, util, Output(points, cres, rgain).x, tol);
  }

  lemma ApplyGrows(share: real, util: real, f: real, tol: real)
    requires 0.0 < share <= 0.9 && f > 0.10 && 0.0 <= tol < 0.1
    ensures share + 0.1 <= Apply(share, DeltaOf(share, util, Value(f)), tol)
  {
    ApplyIsClamp(share, util, f, tol);
    hide EssentiallyEqual, Apply, DeltaOf;
    var n := Max(Clamp(share + f, LoadFloor(util), 1.0), 0.0);
    assert share + 0.1 <= n <= 1.0;
    KeptApart(share, n, tol);
  }

  lemma CloseTo(x: real, y: real, least: real, gap: real, tol: real, t: real)
    requires 0.0 <= x && 0.0 <= y && least == Min(x, y) && gap == Abs(x - y) && t == tol * least
    ensures EssentiallyEqual(x, y, tol) <==> gap <= t
  {
  }

  /** Shares a tenth apart are not taken for equal. */
  lemma KeptApart(x: real, y: real, tol: real)
    requires 0.0 < x && x + 0.1 <= y <= 1.0 && 0.0 <= tol < 0.1
    ensures !EssentiallyEqual(x, y, tol)
  {
    var t := tol * x;
    MulLe(tol, x, 1.0, t, tol);
    CloseTo(x, y, x, y - x, tol, t);
  }

  /**
   * A target beaten by more than 30% of the reference on a machine that uses at most 60% of its
   * share: the share falls below 0.66 of it, or by more than a tenth of the host.
   */
  lemma BeatenTargetTakesShare(points: seq<real>, share: real, util: real, t: Target, tol: real)
    requires Adequate(points) && IsShare(share) && 0.0 <= tol < 0.1 && t.reference > 0.0
    requires if t.responseTime then t.estimate < 0.7 * t.reference else t.estimate > 1.3 * t.reference
    requires util <= 0.6 * share
    ensures Fc2qNext(points, share, util, TargetError(t), tol) <= Max(share - 0.1, 0.66 * share)
  {
    TargetErrorMeaning(t);
    var rgain, cres := TargetError(t).x, (share - util) / share;
    HighResidual(share, util, cres);
    assert rgain > 0.30 by { AboveThird(t); }
    RuleTable(points, cres, rgain);
    hide Output, TargetError, Apply, DeltaOf;
    ApplyShrinks(share, util, Output(points, cres, rgain).x, tol);
  }

  lemma AboveThird(t: Target)
    requires t.reference > 0.0
    requires if t.responseTime then t.estimate < 0.7 * t.reference else t.estimate > 1.3 * t.reference
    ensures TargetError(t).Value? && TargetError(t).x > 0.30
  {
    TargetErrorMeaning(t);
    hide TargetError;
    assert TargetError(t).x != 0.30;
  }

  lemma ApplyShrinks(share: real, util: real, f: real, tol: real)
    requires IsShare(share) && f < -0.10 && util <= 0.6 * share && 0.0 <= tol < 0.1
    ensures Apply(share, DeltaOf(share, util, Value(f)), tol) <= Max(share - 0.1, 0.66 * share)
  {
    ApplyIsClamp(share, util, f, tol);
    hide EssentiallyEqual, Apply, DeltaOf;
    var n := Max(Clamp(share + f, LoadFloor(util), 1.0), 0.0);
    assert n <= Max(share - 0.1, 0.66 * share);
    FallsApart(share, n, tol);
  }

  lemma FallsApart(x: real, y: real, tol: real)
    requires IsShare(x) && 0.0 <= y <= Max(x - 0.1, 0.66 * x) && 0.0 <= tol < 0.1
    ensures !EssentiallyEqual(x, y, tol)
  {
    var t := tol * y;
    MulLe(y, tol, 0.1, t, 0.1 * y);
    CloseTo(x, y, y, x - y, tol, t);
  }
}
