/**
 * What the FCMS controller does for its inputs: the error signal in terms of the target, what each
 * rule makes of the shares, and both together.
 */
module FcmsLaws {
  import opened Reals
  import opened Fuzzy
  import opened FcmsRules
  import opened FcmsShares
  import opened Fcms
  import opened VirtualMachines

  // ---------------------------------------------------------------- the error signal

  /** The application does worse than its target: slower, or with less throughput. */
  predicate Missed(t: Target) {
    if t.responseTime then t.estimate > t.reference else t.estimate < t.reference
  }

  /** It does better by 30% of the reference or more. */
  predicate Beaten(t: Target) {
    if t.responseTime then t.estimate <= 0.7 * t.reference else t.estimate >= 1.3 * t.reference
  }

  /**
   * The error is the distance of the estimate from the reference, relative to the reference, and
   * negative exactly when the target is missed.
   */
  lemma TargetErrorMeaning(t: Target)
    requires t.reference > 0.0
    ensures TargetError(t).Value?
    ensures TargetError(t).x * t.reference == if t.responseTime then t.reference - t.estimate else t.estimate - t.reference
    ensures TargetError(t).x < 0.0 <==> Missed(t)
    ensures TargetError(t).x >= 0.30 <==> Beaten(t)
  {
    var n := if t.responseTime then t.reference - t.estimate else t.estimate - t.reference;
    RatioOrder(n, t.reference, 0.0, 0.0);
    RatioOrder(n, t.reference, 0.30, 0.30 * t.reference);
  }

  lemma RatioOrder(num: real, den: real, b: real, bound: real)
    requires den > 0.0 && bound == b * den
    ensures (num / den) * den == num && (num / den < b <==> num < bound)
  {
    var q := num / den;
    assert q * den == num;
    if q < b {
      MulLt(den, q, b, num, bound);
    } else {
      MulLe(den, b, q, bound, num);
    }
  }

  /** With a reference of zero the sign is that of the estimate, and there is none at zero. */
  lemma ZeroReference(t: Target)
    requires t.reference == 0.0
    ensures TargetError(t) == if t.estimate == 0.0 then NaN else if Missed(t) then Value(-1.0) else Value(1.0)
  {
  }

  // ---------------------------------------------------------------- one rule at a time

  ghost predicate Outputs(n: Number, lo: real, hi: real) {
    n.Value? && lo < n.x < hi
  }

  /** A rule holds as much as the one of its premises that holds least. */
  ghost predicate Weakest(d: real, premises: seq<real>) {
    (exists i :: 0 <= i < |premises| && d == premises[i]) && forall i :: 0 <= i < |premises| ==> d <= premises[i]
  }

  lemma CpuConjunction(cres: real, err: real, c: Residual, e: Error)
    ensures var i := 3 * ResidualRank(c) + ErrorRank(e);
            && Weakest(CpuActivation(cres, err, i).degree, [ResidualDegree(c, cres), ErrorDegree(e, err)])
            && CpuActivation(cres, err, i).change == CpuRule(c, e)
  {
    hide ResidualDegree, ErrorDegree;
    var i := 3 * ResidualRank(c) + ErrorRank(e);
    assert RESIDUALS[i / 3] == c && ERRORS[i % 3] == e;
    var d, premises := CpuActivation(cres, err, i).degree, [ResidualDegree(c, cres), ErrorDegree(e, err)];
    assert d == premises[0] || d == premises[1];
  }

  lemma MemConjunction(cres: real, mres: real, err: real, m: Residual, e: Error, c: Residual)
    ensures var i := 9 * ResidualRank(m) + 3 * ErrorRank(e) + ResidualRank(c);
            && Weakest(MemActivation(cres, mres, err, i).degree,
                       [ResidualDegree(m, mres), ErrorDegree(e, err), ResidualDegree(c, cres)])
            && MemActivation(cres, mres, err, i).change == MemRule(m, e, c)
  {
    hide ResidualDegree, ErrorDegree;
    var i := 9 * ResidualRank(m) + 3 * ErrorRank(e) + ResidualRank(c);
    assert RESIDUALS[i / 9] == m && ERRORS[i / 3 % 3] == e && RESIDUALS[i % 3] == c;
    var d := MemActivation(cres, mres, err, i).degree;
    var premises := [ResidualDegree(m, mres), ErrorDegree(e, err), ResidualDegree(c, cres)];
    assert d == premises[0] || d == premises[1] || d == premises[2];
  }

  /** Where one CPU term and one error term hold alone, the output is inside the conclusion of their rule. */
  lemma CpuRuleAlone(points: seq<real>, cres: real, err: real, c: Residual, e: Error)
    requires Adequate(points)
    requires forall t :: t != c ==> ResidualDegree(t, cres) == 0.0
    requires forall t :: t != e ==> ErrorDegree(t, err) == 0.0
    ensures Outputs(DeltaC(points, cres, err), SupportLow(CpuRule(c, e)), SupportHigh(CpuRule(c, e)))
  {
    var acts := CpuActivations(cres, err);
    forall i | 0 <= i < 9 && acts[i].degree > 0.0
      ensures acts[i].change == CpuRule(c, e)
    {
      assert ResidualDegree(RESIDUALS[i / 3], cres) > 0.0 && ErrorDegree(ERRORS[i % 3], err) > 0.0;
    }
    CpuOutputWithin(points, cres, err, SupportLow(CpuRule(c, e)), SupportHigh(CpuRule(c, e)));
  }

  /** Only this term holds of a residual. */
  ghost predicate OnlyResidual(t: Residual, x: real) {
    match t case LowRes => x <= 0.10 case FineRes => x == 0.25 case HighRes => x >= 0.40
  }

  ghost predicate OnlyError(t: Error, x: real) {
    match t case Neg => x <= 0.10 case Ok => x == 0.20 case Pos => x >= 0.30
  }

  lemma OnlyTerms(c: Residual, cres: real, e: Error, err: real)
    ensures OnlyResidual(c, cres) ==> forall t :: t != c ==> ResidualDegree(t, cres) == 0.0
    ensures OnlyError(e, err) ==> forall t :: t != e ==> ErrorDegree(t, err) == 0.0
  {
    hide ResidualDegree, ErrorDegree;
    forall t: Residual ensures OnlyResidual(c, cres) && t != c ==> ResidualDegree(t, cres) == 0.0 {
      ResidualRange(t, cres);
    }
    forall t: Error ensures OnlyError(e, err) && t != e ==> ErrorDegree(t, err) == 0.0 {
      ErrorRange(t, err);
    }
  }

  lemma CpuRuleApplies(points: seq<real>, cres: real, err: real, c: Residual, e: Error)
    requires Adequate(points) && OnlyResidual(c, cres) && OnlyError(e, err)
    ensures Outputs(DeltaC(points, cres, err), SupportLow(CpuRule(c, e)), SupportHigh(CpuRule(c, e)))
  {
    hide ResidualDegree, ErrorDegree, Adequate, DeltaC;
    OnlyTerms(c, cres, e, err);
    CpuRuleAlone(points, cres, err, c, e);
  }

  /** All nine CPU rules, by the change of the share that each asks for. */
  lemma CpuTable(points: seq<real>, cres: real, err: real)
    requires Adequate(points)
    ensures cres <= 0.10 && err <= 0.10 ==> Outputs(DeltaC(points, cres, err), 0.10, 1.00)
    ensures cres <= 0.10 && err == 0.20 ==> Outputs(DeltaC(points, cres, err), 0.05, 0.20)
    ensures cres <= 0.10 && err >= 0.30 ==> Outputs(DeltaC(points, cres, err), 0.05, 0.20)
    ensures cres == 0.25 && err <= 0.10 ==> Outputs(DeltaC(points, cres, err), 0.05, 0.20)
    ensures cres == 0.25 && err == 0.20 ==> Outputs(DeltaC(points, cres, err), -0.10, 0.10)
    ensures cres == 0.25 && err >= 0.30 ==> Outputs(DeltaC(points, cres, err), -0.20, -0.05)
    ensures cres >= 0.40 && err <= 0.10 ==> Outputs(DeltaC(points, cres, err), -0.10, 0.10)
    ensures cres >= 0.40 && err == 0.20 ==> Outputs(DeltaC(points, cres, err), -0.20, -0.05)
    ensures cres >= 0.40 && err >= 0.30 ==> Outputs(DeltaC(points, cres, err), -1.00, -0.10)
  {
    hide DeltaC, Adequate;
    forall c, e | OnlyResidual(c, cres) && OnlyError(e, err)
      ensures Outputs(DeltaC(points, cres, err), SupportLow(CpuRule(c, e)), SupportHigh(CpuRule(c, e)))
    {
      CpuRuleApplies(points, cres, err, c, e);
    }
    assert OnlyResidual(LowRes, cres) <==> cres <= 0.10;
    assert OnlyResidual(FineRes, cres) <==> cres == 0.25;
    assert OnlyResidual(HighRes, cres) <==> cres >= 0.40;
    assert OnlyError(Neg, err) <==> err <= 0.10;
    assert OnlyError(Ok, err) <==> err == 0.20;
    assert OnlyError(Pos, err) <==> err >= 0.30;
  }

  lemma MemRuleApplies(points: seq<real>, cres: real, mres: real, err: real, m: Residual, e: Error, c: Residual)
    requires Adequate(points) && OnlyResidual(m, mres) && OnlyError(e, err) && OnlyResidual(c, cres)
    ensures Outputs(DeltaM(points, cres, mres, err), SupportLow(MemRule(m, e, c)), SupportHigh(MemRule(m, e, c)))
  {
    hide ResidualDegree, ErrorDegree, Adequate, DeltaM;
    OnlyTerms(c, cres, e, err);
    OnlyTerms(m, mres, e, err);
    var acts := MemActivations(cres, mres, err);
    forall i | 0 <= i < 27 && acts[i].degree > 0.0
      ensures acts[i].change == MemRule(m, e, c)
    {
      assert ResidualDegree(RESIDUALS[i / 9], mres) > 0.0 && ErrorDegree(ERRORS[i / 3 % 3], err) > 0.0
             && ResidualDegree(RESIDUALS[i % 3], cres) > 0.0;
    }
    MemOutputWithin(points, cres, mres, err, SupportLow(MemRule(m, e, c)), SupportHigh(MemRule(m, e, c)));
  }

  /** The memory rules while the CPU residual is FINE; for LOW see `FcmsRules.StarvedCpuHoldsMemory`. */
  lemma MemTableCpuFine(points: seq<real>, mres: real, err: real)
    requires Adequate(points)
    ensures mres <= 0.10 && err <= 0.10 ==> Outputs(DeltaM(points, 0.25, mres, err), 0.05, 0.20)
    ensures mres <= 0.10 && err == 0.20 ==> Outputs(DeltaM(points, 0.25, mres, err), -0.10, 0.10)
    ensures mres <= 0.10 && err >= 0.30 ==> Outputs(DeltaM(points, 0.25, mres, err), 0.05, 0.20)
    ensures mres == 0.25 && err <= 0.10 ==> Outputs(DeltaM(points, 0.25, mres, err), 0.05, 0.20)
    ensures mres == 0.25 && err == 0.20 ==> Outputs(DeltaM(points, 0.25, mres, err), -0.10, 0.10)
    ensures mres == 0.25 && err >= 0.30 ==> Outputs(DeltaM(points, 0.25, mres, err), -0.20, -0.05)
    ensures mres >= 0.40 && err <= 0.10 ==> Outputs(DeltaM(points, 0.25, mres, err), -0.10, 0.10)
    ensures mres >= 0.40 && err == 0.20 ==> Outputs(DeltaM(points, 0.25, mres, err), -0.10, 0.10)
    ensures mres >= 0.40 && err >= 0.30 ==> Outputs(DeltaM(points, 0.25, mres, err), -0.20, -0.05)
  {
    hide DeltaM, Adequate;
    forall m, e | OnlyResidual(m, mres) && OnlyError(e, err)
      ensures Outputs(DeltaM(points, 0.25, mres, err), SupportLow(MemRule(m, e, FineRes)), SupportHigh(MemRule(m, e, FineRes)))
    {
      MemRuleApplies(points, 0.25, mres, err, m, e, FineRes);
    }
    assert OnlyResidual(LowRes, mres) <==> mres <= 0.10;
    assert OnlyResidual(FineRes, mres) <==> mres == 0.25;
    assert OnlyResidual(HighRes, mres) <==> mres >= 0.40;
    assert OnlyError(Neg, err) <==> err <= 0.10;
    assert OnlyError(Ok, err) <==> err == 0.20;
    assert OnlyError(Pos, err) <==> err >= 0.30;
  }

  /** And while it is HIGH. */
  lemma MemTableCpuHigh(points: seq<real>, cres: real, mres: real, err: real)
    requires Adequate(points) && cres >= 0.40
    ensures mres <= 0.10 && err <= 0.10 ==> Outputs(DeltaM(points, cres, mres, err), 0.10, 1.00)
    ensures mres <= 0.10 && err == 0.20 ==> Outputs(DeltaM(points, cres, mres, err), 0.05, 0.20)
    ensures mres <= 0.10 && err >= 0.30 ==> Outputs(DeltaM(points, cres, mres, err), 0.05, 0.20)
    ensures mres == 0.25 && err <= 0.10 ==> Outputs(DeltaM(points, cres, mres, err), 0.05, 0.20)
    ensures mres == 0.25 && err == 0.20 ==> Outputs(DeltaM(points, cres, mres, err), -0.10, 0.10)
    ensures mres == 0.25 && err >= 0.30 ==> Outputs(DeltaM(points, cres, mres, err), -0.20, -0.05)
    ensures mres >= 0.40 && err <= 0.10 ==> Outputs(DeltaM(points, cres, mres, err), -0.10, 0.10)
    ensures mres >= 0.40 && err == 0.20 ==> Outputs(DeltaM(points, cres, mres, err), -0.20, -0.05)
    ensures mres >= 0.40 && err >= 0.30 ==> Outputs(DeltaM(points, cres, mres, err), -1.00, -0.10)
  {
    hide DeltaM, Adequate;
    forall m, e | OnlyResidual(m, mres) && OnlyError(e, err)
      ensures Outputs(DeltaM(points, cres, mres, err), SupportLow(MemRule(m, e, HighRes)), SupportHigh(MemRule(m, e, HighRes)))
    {
      MemRuleApplies(points, cres, mres, err, m, e, HighRes);
    }
    assert OnlyResidual(LowRes, mres) <==> mres <= 0.10;
    assert OnlyResidual(FineRes, mres) <==> mres == 0.25;
    assert OnlyResidual(HighRes, mres) <==> mres >= 0.40;
    assert OnlyError(Neg, err) <==> err <= 0.10;
    assert OnlyError(Ok, err) <==> err == 0.20;
    assert OnlyError(Pos, err) <==> err >= 0.30;
  }

  // ---------------------------------------------------------------- from the target to the shares

  /** A control without a fault; t is the last target. */
  function Controlled(points: seq<real>, s: Shares, load: Load, others: seq<Target>, t: Target): Shares
    requires Adequate(points) && ValidShares(s)
  {
    VmNext(points, s, load, LastError(others + [t]), 0, 2)
  }

  lemma HighResidual(share: real, util: real, cres: real)
    requires share > 0.0 && util <= 0.6 * share && cres == (share - util) / share
    ensures cres >= 0.40
  {
    RatioOrder(share - util, share, 0.40, 0.40 * share);
  }

  /** What an output between lo and hi makes of a share of which at most 60% are used. */
  lemma SpareShare(share: real, util: real, f: real, lo: real, hi: real)
    requires IsShare(share) && util <= 0.6 * share && -1.0 <= lo < f < hi
    ensures Min(1.0, share * (1.0 + lo)) <= Computed(share, util, f) < Max(share * (1.0 + hi), 0.66 * share) + 0.01
  {
    hide Computed, Unrounded;
    ComputedShare(share, util, f);
    UnroundedIsClamp(share, util, f);
    var x, a, b := share * (1.0 + f), share * (1.0 + lo), share * (1.0 + hi);
    MulLt(share, 1.0 + f, 1.0 + hi, x, b);
    MulLt(share, 1.0 + lo, 1.0 + f, a, x);
    ClampedBetween(share, util, x, a, b);
  }

  lemma ClampedBetween(share: real, util: real, x: real, a: real, b: real)
    requires util <= 0.6 * share && share > 0.0 && a < x < b
    ensures Min(1.0, a) <= Clamp(x, LoadFloor(util), 1.0) <= Max(b, 0.66 * share)
  {
  }

  /**
   * A response time above its reference, or a throughput below it, with CPU to spare and memory
   * nearly used up: memory climbs at least a cell, or is full.
   */
  lemma MissedTargetGivesMemory(points: seq<real>, s: Shares, load: Load, others: seq<Target>, t: Target)
    requires Adequate(points) && ValidShares(s) && t.reference > 0.0 && Missed(t)
    requires load.cpu <= 0.6 * s.cpu && load.mem >= 0.9 * s.mem
    ensures var n := Controlled(points, s, load, others, t).mem;
            Full(n) || Cell(s.mem) + 1 <= Cell(n) <= 99
  {
    TargetErrorMeaning(t);
    SpareAfterCpu(points, s, load, TargetError(t).x);
    MemoryStep(points, s, load, TargetError(t).x);
  }

  /** Where performance is missed, CPU to spare is left about as it is. */
  lemma SpareAfterCpu(points: seq<real>, s: Shares, load: Load, err: real)
    requires Adequate(points) && ValidShares(s) && err < 0.10 && load.cpu <= 0.6 * s.cpu
    ensures 0.6 * s.cpu <= 0.75 * CpuNext(points, s, load, Value(err))
  {
    var cres := (s.cpu - load.cpu) / s.cpu;
    HighResidual(s.cpu, load.cpu, cres);
    CpuTable(points, cres, err);
    hide DeltaC;
    var f := DeltaC(points, cres, err).x;
    SpareShare(s.cpu, load.cpu, f, -0.10, 0.10);
    hide Computed, EssentiallyEqual, Adequate;
    KeptShare(s.cpu, Computed(s.cpu, load.cpu, f), CpuNext(points, s, load, Value(err)));
  }

  lemma KeptShare(share: real, c: real, n: real)
    requires IsShare(share) && Min(1.0, share * (1.0 + -0.10)) <= c && (n == share || n == c)
    ensures 0.6 * share <= 0.75 * n
  {
  }

  /**
   * A response time at most 0.7 of its reference, or a throughput at least 1.3 of it, on a machine
   * that uses at most 60% of its CPU share: the share drops by more than a tenth, up to rounding.
   */
  lemma BeatenTargetTakesCpu(points: seq<real>, s: Shares, load: Load, others: seq<Target>, t: Target)
    requires Adequate(points) && ValidShares(s) && t.reference > 0.0 && Beaten(t)
    requires load.cpu <= 0.6 * s.cpu && s.cpu >= 0.12
    ensures Controlled(points, s, load, others, t).cpu < 0.9 * s.cpu + 0.01 < s.cpu
  {
    TargetErrorMeaning(t);
    var err, cres := TargetError(t).x, (s.cpu - load.cpu) / s.cpu;
    HighResidual(s.cpu, load.cpu, cres);
    CpuTable(points, cres, err);
    hide DeltaC, TargetError;
    var f := DeltaC(points, cres, err).x;
    SpareShare(s.cpu, load.cpu, f, -1.0, -0.10);
    hide Computed, Adequate;
    DroppedShare(s.cpu, Computed(s.cpu, load.cpu, f));
  }

  lemma DroppedShare(share: real, c: real)
    requires 0.12 <= share <= 1.0 && c < Max(share * (1.0 + -0.10), 0.66 * share) + 0.01
    ensures c < 0.9 * share + 0.01 < share && !EssentiallyEqual(share, c, RESOURCE_SHARE_TOL)
  {
  }

  /** A missed target with the CPU share three quarters used, the residual at its set point: the share climbs a cell. */
  lemma MissedTargetGivesCpu(points: seq<real>, s: Shares, load: Load, others: seq<Target>, t: Target)
    requires Adequate(points) && ValidShares(s) && t.reference > 0.0 && Missed(t)
    requires load.cpu == 0.75 * s.cpu
    ensures var n := Controlled(points, s, load, others, t).cpu;
            Full(n) || Cell(s.cpu) + 1 <= Cell(n) <= 99
  {
    TargetErrorMeaning(t);
    var err, cres := TargetError(t).x, (s.cpu - load.cpu) / s.cpu;
    assert cres * s.cpu == s.cpu - load.cpu;
    RatioOrder(s.cpu - load.cpu, s.cpu, 0.25, 0.25 * s.cpu);
    assert cres == 0.25;
    CpuTable(points, cres, err);
    hide DeltaC, TargetError;
    GrowthStep(s.cpu, load.cpu, DeltaC(points, cres, err).x);
  }

  /** An engine that fails at call number `fault` leaves the decisions before that call as they would have been. */
  lemma FaultCutsOff(points: seq<real>, s: Shares, load: Load, err: Number, i: nat, fault: nat)
    requires Adequate(points) && ValidShares(s)
    ensures var whole, n := VmNext(points, s, load, err, 0, 2), VmNext(points, s, load, err, i, fault);
            && n.cpu == (if fault <= 2 * i then s.cpu else whole.cpu)
            && n.mem == (if fault <= 2 * i + 1 then s.mem else whole.mem)
  {
  }
}
