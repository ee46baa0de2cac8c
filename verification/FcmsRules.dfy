/** The two fuzzy engines of the FCMS controller: input terms, rule tables, and what they output. */
module FcmsRules {
  import opened Reals
  import opened Fuzzy

  datatype Residual = LowRes | FineRes | HighRes
  datatype Error = Neg | Ok | Pos

  /** Terms of Cres and Mres, the residual of a resource relative to its share. */
  function ResidualDegree(t: Residual, x: real): real {
    match t
    case LowRes => Ramp(0.25, 0.00, x)
    case FineRes => Triangle(0.10, 0.25, 0.40, x)
    case HighRes => Ramp(0.25, 1.00, x)
  }

  /** Terms of E, the relative error of the application performance. */
  function ErrorDegree(t: Error, x: real): real {
    match t
    case Neg => Ramp(0.20, -0.10, x)
    case Ok => Triangle(0.10, 0.20, 0.30, x)
    case Pos => Ramp(0.20, 1.00, x)
  }

  const RESIDUALS := [LowRes, FineRes, HighRes]
  const ERRORS := [Neg, Ok, Pos]

  function CpuRule(c: Residual, e: Error): Change {
    match (c, e)
    case (LowRes, Neg) => Bup
    case (LowRes, Ok) => Up
    case (LowRes, Pos) => Up
    case (FineRes, Neg) => Up
    case (FineRes, Ok) => Sty
    case (FineRes, Pos) => Dwn
    case (HighRes, Neg) => Sty
    case (HighRes, Ok) => Dwn
    case (HighRes, Pos) => Bdw
  }

  function MemRule(m: Residual, e: Error, c: Residual): Change {
    match (m, e, c)
    case (LowRes, Neg, LowRes) => Sty
    case (LowRes, Neg, FineRes) => Up
    case (LowRes, Neg, HighRes) => Bup
    case (LowRes, Ok, LowRes) => Sty
    case (LowRes, Ok, FineRes) => Sty
    case (LowRes, Ok, HighRes) => Up
    case (LowRes, Pos, LowRes) => Sty
    case (LowRes, Pos, FineRes) => Up
    case (LowRes, Pos, HighRes) => Up
    case (FineRes, Neg, LowRes) => Sty
    case (FineRes, Neg, FineRes) => Up
    case (FineRes, Neg, HighRes) => Up
    case (FineRes, Ok, LowRes) => Sty
    case (FineRes, Ok, FineRes) => Sty
    case (FineRes, Ok, HighRes) => Sty
    case (FineRes, Pos, LowRes) => Sty
    case (FineRes, Pos, FineRes) => Dwn
    case (FineRes, Pos, HighRes) => Dwn
    case (HighRes, Neg, LowRes) => Sty
    case (HighRes, Neg, FineRes) => Sty
    case (HighRes, Neg, HighRes) => Sty
    case (HighRes, Ok, LowRes) => Sty
    case (HighRes, Ok, FineRes) => Sty
    case (HighRes, Ok, HighRes) => Dwn
    case (HighRes, Pos, LowRes) => Sty
    case (HighRes, Pos, FineRes) => Dwn
    case (HighRes, Pos, HighRes) => Bdw
  }

  /** The i-th CPU rule, in the order the rules are added. */
  function CpuActivation(cres: real, err: real, i: nat): Activation
    requires i < 9
  {
    var c, e := RESIDUALS[i / 3], ERRORS[i % 3];
    Activation(Min(ResidualDegree(c, cres), ErrorDegree(e, err)), CpuRule(c, e))
  }

  function CpuActivations(cres: real, err: real): (acts: seq<Activation>)
    ensures |acts| == 9 && forall i :: 0 <= i < 9 ==> acts[i] == CpuActivation(cres, err, i)
  {
    seq(9, i requires 0 <= i < 9 => CpuActivation(cres, err, i))
  }

  /** The i-th memory rule, in the order the rules are added. */
  function MemActivation(cres: real, mres: real, err: real, i: nat): Activation
    requires i < 27
  {
    var m, e, c := RESIDUALS[i / 9], ERRORS[i / 3 % 3], RESIDUALS[i % 3];
    Activation(Min(Min(ResidualDegree(m, mres), ErrorDegree(e, err)), ResidualDegree(c, cres)), MemRule(m, e, c))
  }

  function MemActivations(cres: real, mres: real, err: real): (acts: seq<Activation>)
    ensures |acts| == 27 && forall i :: 0 <= i < 27 ==> acts[i] == MemActivation(cres, mres, err, i)
  {
    seq(27, i requires 0 <= i < 27 => MemActivation(cres, mres, err, i))
  }

  function DeltaC(points: seq<real>, cres: real, err: real): Number {
    Defuzzified(CpuActivations(cres, err), points)
  }

  function DeltaM(points: seq<real>, cres: real, mres: real, err: real): Number {
    Defuzzified(MemActivations(cres, mres, err), points)
  }

  // ---------------------------------------------------------------- inputs that are quotients

  /**
   * A quotient as the terms see it.  Division by zero gives an infinity, where every term has the
   * degree that it has at 1 or -1 (see `FarResidual` and `FarError`), or else no number.
   */
  function Ratio(num: real, den: real): Number {
    if den != 0.0 then Value(num / den)
    else if num > 0.0 then Value(1.0)
    else if num < 0.0 then Value(-1.0)
    else NaN
  }

  lemma FarResidual(t: Residual, x: real)
    ensures x <= -1.0 ==> ResidualDegree(t, x) == ResidualDegree(t, -1.0)
    ensures x >= 1.0 ==> ResidualDegree(t, x) == ResidualDegree(t, 1.0)
  {
  }

  lemma FarError(t: Error, x: real)
    ensures x <= -1.0 ==> ErrorDegree(t, x) == ErrorDegree(t, -1.0)
    ensures x >= 1.0 ==> ErrorDegree(t, x) == ErrorDegree(t, 1.0)
  {
  }

  // ---------------------------------------------------------------- the partitions have no gap

  lemma ResidualRange(t: Residual, x: real)
    ensures 0.0 <= ResidualDegree(t, x) <= 1.0
    ensures ResidualDegree(t, x) > 0.0 <==> match t case LowRes => x < 0.25 case FineRes => 0.10 < x < 0.40 case HighRes => x > 0.25
    ensures ResidualDegree(t, x) == 1.0 <==> match t case LowRes => x <= 0.00 case FineRes => x == 0.25 case HighRes => x >= 1.00
  {
    match t
    case LowRes => RampRange(0.25, 0.00, x);
    case FineRes => TriangleRange(0.10, 0.25, 0.40, x);
    case HighRes => RampRange(0.25, 1.00, x);
  }

  lemma ErrorRange(t: Error, x: real)
    ensures 0.0 <= ErrorDegree(t, x) <= 1.0
    ensures ErrorDegree(t, x) > 0.0 <==> match t case Neg => x < 0.20 case Ok => 0.10 < x < 0.30 case Pos => x > 0.20
    ensures ErrorDegree(t, x) == 1.0 <==> match t case Neg => x <= -0.10 case Ok => x == 0.20 case Pos => x >= 1.00
  {
    match t
    case Neg => RampRange(0.20, -0.10, x);
    case Ok => TriangleRange(0.10, 0.20, 0.30, x);
    case Pos => RampRange(0.20, 1.00, x);
  }

  /** The index, in its list, of a term that holds of x. */
  function ResidualIndex(x: real): nat {
    if x < 0.25 then 0 else if x > 0.25 then 2 else 1
  }

  function ErrorIndex(x: real): nat {
    if x < 0.20 then 0 else if x > 0.20 then 2 else 1
  }

  lemma TermsCover(x: real)
    ensures ResidualDegree(RESIDUALS[ResidualIndex(x)], x) > 0.0
    ensures ErrorDegree(ERRORS[ErrorIndex(x)], x) > 0.0
  {
    ResidualRange(RESIDUALS[ResidualIndex(x)], x);
    ErrorRange(ERRORS[ErrorIndex(x)], x);
  }

  lemma CpuDegrees(cres: real, err: real)
    ensures Degrees(CpuActivations(cres, err))
  {
    forall i | 0 <= i < 9
      ensures 0.0 <= CpuActivation(cres, err, i).degree <= 1.0
    {
      ResidualRange(RESIDUALS[i / 3], cres);
      ErrorRange(ERRORS[i % 3], err);
    }
  }

  lemma MemDegrees(cres: real, mres: real, err: real)
    ensures Degrees(MemActivations(cres, mres, err))
  {
    forall i | 0 <= i < 27
      ensures 0.0 <= MemActivation(cres, mres, err, i).degree <= 1.0
    {
      ResidualRange(RESIDUALS[i / 9], mres);
      ErrorRange(ERRORS[i / 3 % 3], err);
      ResidualRange(RESIDUALS[i % 3], cres);
    }
  }

  /** Every input fires at least one CPU rule. */
  lemma SomeCpuRuleFires(cres: real, err: real)
    ensures CpuActivation(cres, err, 3 * ResidualIndex(cres) + ErrorIndex(err)).degree > 0.0
  {
    TermsCover(cres);
    TermsCover(err);
  }

  /** Every input fires at least one memory rule. */
  lemma SomeMemRuleFires(cres: real, mres: real, err: real)
    ensures MemActivation(cres, mres, err, 9 * ResidualIndex(mres) + 3 * ErrorIndex(err) + ResidualIndex(cres)).degree > 0.0
  {
    TermsCover(cres);
    TermsCover(mres);
    TermsCover(err);
  }

  // ---------------------------------------------------------------- what the engines output

  /** The fired rules conclude within (lo, hi), so the output exists and lies strictly between. */
  lemma CpuOutputWithin(points: seq<real>, cres: real, err: real, lo: real, hi: real)
    requires Adequate(points) && ConcludesWithin(CpuActivations(cres, err), lo, hi)
    ensures DeltaC(points, cres, err).Value? && lo < DeltaC(points, cres, err).x < hi
  {
    var acts, i := CpuActivations(cres, err), 3 * ResidualIndex(cres) + ErrorIndex(err);
    CpuDegrees(cres, err);
    SomeCpuRuleFires(cres, err);
    OutputWithin(acts, points, lo, hi, i);
  }

  lemma OutputWithin(acts: seq<Activation>, points: seq<real>, lo: real, hi: real, i: nat)
    requires Adequate(points) && Degrees(acts) && ConcludesWithin(acts, lo, hi)
    requires i < |acts| && acts[i].degree > 0.0
    ensures Defuzzified(acts, points).Value? && lo < Defuzzified(acts, points).x < hi
  {
    assert Seen(points, acts[i].change);
    var k :| 0 <= k < |points| && SupportLow(acts[i].change) < points[k] < SupportHigh(acts[i].change);
    ShapeRange(acts[i].change, points[k]);
    CentroidWithin(acts, points, lo, hi, i, k);
  }

  /** For every input, DeltaC is a number strictly between -1 and 1. */
  lemma DeltaCTotal(points: seq<real>, cres: real, err: real)
    requires Adequate(points)
    ensures DeltaC(points, cres, err).Value? && -1.0 < DeltaC(points, cres, err).x < 1.0
  {
    CpuOutputWithin(points, cres, err, -1.0, 1.0);
  }

  /** For every input, DeltaM is a number strictly between -1 and 1. */
  lemma DeltaMTotal(points: seq<real>, cres: real, mres: real, err: real)
    requires Adequate(points)
    ensures DeltaM(points, cres, mres, err).Value? && -1.0 < DeltaM(points, cres, mres, err).x < 1.0
  {
    hide MemActivation;
    MemDegrees(cres, mres, err);
    SomeMemRuleFires(cres, mres, err);
    OutputWithin(MemActivations(cres, mres, err), points, -1.0, 1.0,
                 9 * ResidualIndex(mres) + 3 * ErrorIndex(err) + ResidualIndex(cres));
  }

  /** With a tenth or less of its share unused, only UP and BUP fire: the CPU share is to grow by more than 5%. */
  lemma StarvedGrows(points: seq<real>, cres: real, err: real)
    requires Adequate(points) && cres <= 0.10
    ensures DeltaC(points, cres, err).Value? && DeltaC(points, cres, err).x > 0.05
  {
    var acts := CpuActivations(cres, err);
    forall i | 0 <= i < 9 && acts[i].degree > 0.0
      ensures acts[i].change in {Up, Bup}
    {
      ResidualRange(RESIDUALS[i / 3], cres);
      ErrorRange(ERRORS[i % 3], err);
      assert i / 3 == 0;
    }
    CpuOutputWithin(points, cres, err, 0.05, 1.0);
  }

  /** With most of its share unused and performance well on target, only BDW fires: it is to shrink by more than 10%. */
  lemma IdleShrinks(points: seq<real>, cres: real, err: real)
    requires Adequate(points) && cres >= 0.40 && err >= 0.30
    ensures DeltaC(points, cres, err).Value? && DeltaC(points, cres, err).x < -0.10
  {
    var acts := CpuActivations(cres, err);
    forall i | 0 <= i < 9 && acts[i].degree > 0.0
      ensures acts[i].change == Bdw
    {
      ResidualRange(RESIDUALS[i / 3], cres);
      ErrorRange(ERRORS[i % 3], err);
      assert i / 3 == 2 && i % 3 == 2;
    }
    CpuOutputWithin(points, cres, err, -1.0, -0.10);
  }

  // ---------------------------------------------------------------- the memory engine

  lemma MemOutputWithin(points: seq<real>, cres: real, mres: real, err: real, lo: real, hi: real)
    requires Adequate(points) && ConcludesWithin(MemActivations(cres, mres, err), lo, hi)
    ensures DeltaM(points, cres, mres, err).Value? && lo < DeltaM(points, cres, mres, err).x < hi
  {
    MemDegrees(cres, mres, err);
    SomeMemRuleFires(cres, mres, err);
    OutputWithin(MemActivations(cres, mres, err), points, lo, hi,
                 9 * ResidualIndex(mres) + 3 * ErrorIndex(err) + ResidualIndex(cres));
  }

  /** While the CPU is starved only STY fires: the memory share is to change by less than 10%, whatever its own residual. */
  lemma StarvedCpuHoldsMemory(points: seq<real>, cres: real, mres: real, err: real)
    requires Adequate(points) && cres <= 0.10
    ensures DeltaM(points, cres, mres, err).Value? && -0.10 < DeltaM(points, cres, mres, err).x < 0.10
  {
    var acts := MemActivations(cres, mres, err);
    forall i | 0 <= i < 27 && acts[i].degree > 0.0
      ensures acts[i].change == Sty
    {
      ResidualRange(RESIDUALS[i % 3], cres);
      assert RESIDUALS[i % 3] == LowRes;
    }
    MemOutputWithin(points, cres, mres, err, -0.10, 0.10);
  }

  /** With CPU to spare, memory short and performance missed, only UP and BUP fire. */
  lemma StarvedMemoryGrows(points: seq<real>, cres: real, mres: real, err: real)
    requires Adequate(points) && cres >= 0.25 && mres <= 0.10 && err <= 0.10
    ensures DeltaM(points, cres, mres, err).Value? && DeltaM(points, cres, mres, err).x > 0.05
  {
    var acts := MemActivations(cres, mres, err);
    forall i | 0 <= i < 27 && acts[i].degree > 0.0
      ensures acts[i].change in {Up, Bup}
    {
      FiredMemRule(cres, mres, err, i);
      assert RESIDUALS[i / 9] == LowRes && ERRORS[i / 3 % 3] == Neg && RESIDUALS[i % 3] != LowRes;
    }
    MemOutputWithin(points, cres, mres, err, 0.05, 1.0);
  }

  /** With both residuals high and performance well on target, only BDW fires. */
  lemma IdleMemoryShrinks(points: seq<real>, cres: real, mres: real, err: real)
    requires Adequate(points) && cres >= 0.40 && mres >= 0.40 && err >= 0.30
    ensures DeltaM(points, cres, mres, err).Value? && DeltaM(points, cres, mres, err).x < -0.10
  {
    var acts := MemActivations(cres, mres, err);
    forall i | 0 <= i < 27 && acts[i].degree > 0.0
      ensures acts[i].change == Bdw
    {
      FiredMemRule(cres, mres, err, i);
      assert RESIDUALS[i / 9] == HighRes && ERRORS[i / 3 % 3] == Pos && RESIDUALS[i % 3] == HighRes;
    }
    MemOutputWithin(points, cres, mres, err, -1.0, -0.10);
  }

  /** A rule that fired has all three of its premises to some degree. */
  lemma FiredMemRule(cres: real, mres: real, err: real, i: nat)
    requires i < 27 && MemActivation(cres, mres, err, i).degree > 0.0
    ensures match RESIDUALS[i / 9] case LowRes => mres < 0.25 case FineRes => 0.10 < mres < 0.40 case HighRes => mres > 0.25
    ensures match ERRORS[i / 3 % 3] case Neg => err < 0.20 case Ok => 0.10 < err < 0.30 case Pos => err > 0.20
    ensures match RESIDUALS[i % 3] case LowRes => cres < 0.25 case FineRes => 0.10 < cres < 0.40 case HighRes => cres > 0.25
  {
    ResidualRange(RESIDUALS[i / 9], mres);
    ErrorRange(ERRORS[i / 3 % 3], err);
    ResidualRange(RESIDUALS[i % 3], cres);
  }

  // ---------------------------------------------------------------- the rule tables

  function Rank(t: Change): int {
    match t case Bdw => -2 case Dwn => -1 case Sty => 0 case Up => 1 case Bup => 2
  }

  function ResidualRank(t: Residual): nat {
    match t case LowRes => 0 case FineRes => 1 case HighRes => 2
  }

  function ErrorRank(t: Error): nat {
    match t case Neg => 0 case Ok => 1 case Pos => 2
  }

  /** A larger residual or a better performance never asks for more CPU. */
  lemma CpuTableAntitone(c: Residual, c': Residual, e: Error, e': Error)
    requires ResidualRank(c) <= ResidualRank(c') && ErrorRank(e) <= ErrorRank(e')
    ensures Rank(CpuRule(c', e')) <= Rank(CpuRule(c, e))
  {
  }

  /**
   * A larger memory residual never asks for more memory.  A better performance does so in exactly
   * one place of the table: memory residual LOW and CPU residual FINE, from OK to POS.
   */
  lemma MemTableAntitoneIff(m: Residual, m': Residual, e: Error, e': Error, c: Residual)
    requires ResidualRank(m) <= ResidualRank(m') && ErrorRank(e) <= ErrorRank(e')
    ensures Rank(MemRule(m', e, c)) <= Rank(MemRule(m, e, c))
    ensures Rank(MemRule(m, e', c)) <= Rank(MemRule(m, e, c))
            <==> !(m == LowRes && c == FineRes && e == Ok && e' == Pos)
  {
  }
}
