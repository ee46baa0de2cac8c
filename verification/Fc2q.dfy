/**
 * The FC2Q controller: CPU shares only, computed for all machines first and applied afterwards.
 */
module Fc2q {
  import opened Reals
  import opened Fuzzy
  import opened FcmsRules
  import opened FcmsShares
  import opened Fcms
  import opened VirtualMachines

  // ---------------------------------------------------------------- the engine

  function CresDegree(t: Residual, x: real): real {
    match t
    case LowRes => Ramp(0.30, 0.00, x)
    case FineRes => Triangle(0.10, 0.25, 0.40, x)
    case HighRes => Ramp(0.30, 1.00, x)
  }

  /** Terms of Rgain: LOW, FINE and HIGH play the parts of NEG, OK and POS. */
  function RgainDegree(t: Error, x: real): real {
    match t
    case Neg => Ramp(0.20, -0.40, x)
    case Ok => Triangle(0.10, 0.20, 0.30, x)
    case Pos => Ramp(0.30, 1.00, x)
  }

  function RuleActivation(cres: real, rgain: real, i: nat): Activation
    requires i < 9
  {
    var c, e := RESIDUALS[i / 3], ERRORS[i % 3];
    Activation(Min(CresDegree(c, cres), RgainDegree(e, rgain)), CpuRule(c, e))
  }

  function Activations(cres: real, rgain: real): (acts: seq<Activation>)
    ensures |acts| == 9 && forall i :: 0 <= i < 9 ==> acts[i] == RuleActivation(cres, rgain, i)
  {
    seq(9, i requires 0 <= i < 9 => RuleActivation(cres, rgain, i))
  }

  function Output(points: seq<real>, cres: real, rgain: real): Number {
    Defuzzified(Activations(cres, rgain), points)
  }

  lemma CresRange(t: Residual, x: real)
    ensures 0.0 <= CresDegree(t, x) <= 1.0
    ensures CresDegree(t, x) > 0.0 <==> match t case LowRes => x < 0.30 case FineRes => 0.10 < x < 0.40 case HighRes => x > 0.30
    ensures CresDegree(t, x) == 1.0 <==> match t case LowRes => x <= 0.00 case FineRes => x == 0.25 case HighRes => x >= 1.00
  {
    match t
    case LowRes => RampRange(0.30, 0.00, x);
    case FineRes => TriangleRange(0.10, 0.25, 0.40, x);
    case HighRes => RampRange(0.30, 1.00, x);
  }

  lemma RgainRange(t: Error, x: real)
    ensures 0.0 <= RgainDegree(t, x) <= 1.0
    ensures RgainDegree(t, x) > 0.0 <==> match t case Neg => x < 0.20 case Ok => 0.10 < x < 0.30 case Pos => x > 0.30
    ensures RgainDegree(t, x) == 1.0 <==> match t case Neg => x <= -0.40 case Ok => x == 0.20 case Pos => x >= 1.00
  {
    match t
    case Neg => RampRange(0.20, -0.40, x);
    case Ok => TriangleRange(0.10, 0.20, 0.30, x);
    case Pos => RampRange(0.30, 1.00, x);
  }

  lemma RuleDegrees(cres: real, rgain: real)
    ensures Degrees(Activations(cres, rgain))
  {
    forall i | 0 <= i < 9
      ensures 0.0 <= RuleActivation(cres, rgain, i).degree <= 1.0
    {
      CresRange(RESIDUALS[i / 3], cres);
      RgainRange(ERRORS[i % 3], rgain);
    }
  }

  /** The index of a rule that fires, when the gain is not in the gap between FINE and HIGH. */
  function FiringRule(cres: real, rgain: real): nat {
    3 * (if cres < 0.30 then 0 else if cres > 0.30 then 2 else 1) + (if rgain < 0.20 then 0 else if rgain > 0.30 then 2 else 1)
  }

  lemma SomeRuleFires(cres: real, rgain: real)
    requires rgain != 0.30
    ensures RuleActivation(cres, rgain, FiringRule(cres, rgain)).degree > 0.0
  {
    var i := FiringRule(cres, rgain);
    CresRange(RESIDUALS[i / 3], cres);
    RgainRange(ERRORS[i % 3], rgain);
  }

  /** Unlike FCMS, this rule base has a gap: exactly at a gain of 0.30 no rule fires and there is no output. */
  lemma OutputIff(points: seq<real>, cres: real, rgain: real)
    requires Adequate(points)
    ensures Output(points, cres, rgain).Value? <==> rgain != 0.30
    ensures rgain != 0.30 ==> -1.0 < Output(points, cres, rgain).x < 1.0
  {
    RuleDegrees(cres, rgain);
    var acts := Activations(cres, rgain);
    if rgain != 0.30 {
      SomeRuleFires(cres, rgain);
      OutputWithin(acts, points, -1.0, 1.0, FiringRule(cres, rgain));
    } else {
      forall i | 0 <= i < 9
        ensures acts[i].degree == 0.0
      {
        RgainRange(ERRORS[i % 3], rgain);
        CresRange(RESIDUALS[i / 3], cres);
      }
      NothingFired(acts, points);
    }
  }

  lemma {:induction false} NothingFired(acts: seq<Activation>, points: seq<real>)
    requires Degrees(acts) && forall i :: 0 <= i < |acts| ==> acts[i].degree == 0.0
    ensures Area(acts, points) == 0.0
  {
    if |points| > 0 {
      NothingFired(acts, points[..|points| - 1]);
      AccumulatedRange(acts, points[|points| - 1]);
    }
  }

  /** An idle machine whose application does well is to lose more than a tenth of the host. */
  lemma IdleLoses(points: seq<real>, cres: real, rgain: real)
    requires Adequate(points) && cres >= 0.40 && rgain > 0.30
    ensures Output(points, cres, rgain).Value? && Output(points, cres, rgain).x < -0.10
  {
    var acts := Activations(cres, rgain);
    RuleDegrees(cres, rgain);
    forall i | 0 <= i < 9 && acts[i].degree > 0.0
      ensures acts[i].change == Bdw
    {
      CresRange(RESIDUALS[i / 3], cres);
      RgainRange(ERRORS[i % 3], rgain);
      assert i / 3 == 2 && i % 3 == 2;
    }
    SomeRuleFires(cres, rgain);
    OutputWithin(acts, points, -1.0, -0.10, FiringRule(cres, rgain));
  }

  /** At an infinite residual or gain, too, every term has the degree that it has at 1 or -1. */
  lemma FarInputs(r: Residual, g: Error, x: real)
    ensures x <= -1.0 ==> CresDegree(r, x) == CresDegree(r, -1.0) && RgainDegree(g, x) == RgainDegree(g, -1.0)
    ensures x >= 1.0 ==> CresDegree(r, x) == CresDegree(r, 1.0) && RgainDegree(g, x) == RgainDegree(g, 1.0)
  {
  }

  /** What the engine outputs; an input that is not a number fires no rule. */
  function EngineOutput(points: seq<real>, cres: Number, rgain: Number): Number {
    if cres.Value? && rgain.Value? then Output(points, cres.x, rgain.x) else NaN
  }

  // ---------------------------------------------------------------- one decision

  /** The clamped change, an absolute one; an output that is not a number stays one. */
  function DeltaOf(share: real, util: real, fuzzy: Number): Number {
    match fuzzy
    case NaN => NaN
    case Value(f) => Value(Clamp(f, LoadFloor(util) - share, Max(0.0, 1.0 - share)))
  }

  function Apply(share: real, delta: Number, tol: real): real {
    match delta
    case NaN => share
    case Value(d) =>
      var n := Max(Min(share + d, 1.0), 0.0);
      if EssentiallyEqual(share, n, tol) then share else n
  }

  function DeltaFor(points: seq<real>, share: real, util: real, rgain: Number): Number {
    DeltaOf(share, util, EngineOutput(points, Ratio(share - util, share), rgain))
  }

  function Fc2qNext(points: seq<real>, share: real, util: real, rgain: Number, tol: real): real {
    Apply(share, DeltaFor(points, share, util, rgain), tol)
  }

  /** The new share, in one line: the old share plus the output, between its floor and the host. */
  lemma ApplyIsClamp(share: real, util: real, f: real, tol: real)
    requires 0.0 <= share <= 1.0 && 0.0 <= tol < 1.0
    ensures var n := Max(Clamp(share + f, LoadFloor(util), 1.0), 0.0);
            Apply(share, DeltaOf(share, util, Value(f)), tol) == if EssentiallyEqual(share, n, tol) then share else n
  {
  }

  /** The next share is again one to divide by, unless the machine is unused and the output takes all it has. */
  lemma StaysPositiveIff(share: real, util: real, f: real, tol: real)
    requires IsShare(share) && 0.0 <= tol < 1.0
    ensures IsShare(Apply(share, DeltaOf(share, util, Value(f)), tol)) <==> util > 0.0 || share + f > 0.0
  {
    ApplyIsClamp(share, util, f, tol);
    assert util > 0.0 ==> LoadFloor(util) > 0.0;
    assert !EssentiallyEqual(share, 0.0, tol);
  }

  /** From a residual of 1 on, the output depends on the gain alone. */
  lemma {:induction false} FarOutput(points: seq<real>, cres: real, rgain: real)
    requires cres >= 1.0
    ensures Output(points, cres, rgain) == Output(points, 1.0, rgain)
  {
    forall i | 0 <= i < 9
      ensures RuleActivation(cres, rgain, i) == RuleActivation(1.0, rgain, i)
    {
      FarInputs(RESIDUALS[i / 3], ERRORS[i % 3], cres);
    }
    assert Activations(cres, rgain) == Activations(1.0, rgain);
  }

  /**
   * The share of an unused machine stays one to divide by if and only if the share and what the
   * engine outputs at a residual of 1 for the gain at hand are together positive.
   */
  lemma UnusedStaysPositiveIff(points: seq<real>, share: real, util: real, rgain: real, tol: real)
    requires IsShare(share) && util <= 0.0 && 0.0 <= tol < 1.0
    ensures IsShare(Fc2qNext(points, share, util, Value(rgain), tol))
            <==> match Output(points, 1.0, rgain)
                 case NaN => true
                 case Value(f) => share + f > 0.0
  {
    hide Output;
    var cres := (share - util) / share;
    UnusedResidual(share, util, cres);
    FarOutput(points, cres, rgain);
    var out := Output(points, 1.0, rgain);
    if out.Value? {
      StaysPositiveIff(share, util, out.x, tol);
    }
  }

  /** A share never leaves [0, 1], whatever the input. */
  lemma NextInUnit(points: seq<real>, share: real, util: real, rgain: Number, tol: real)
    requires 0.0 <= share <= 1.0
    ensures 0.0 <= Fc2qNext(points, share, util, rgain, tol) <= 1.0
  {
    hide EngineOutput;
  }

  /** The share of a machine in use stays one to divide by, at every gain. */
  lemma UsedStaysPositive(points: seq<real>, share: real, util: real, rgain: Number, tol: real)
    requires IsShare(share) && util > 0.0 && 0.0 <= tol < 1.0
    ensures IsShare(Fc2qNext(points, share, util, rgain, tol))
  {
    hide EngineOutput;
    var out := EngineOutput(points, Ratio(share - util, share), rgain);
    if out.Value? {
      StaysPositiveIff(share, util, out.x, tol);
    }
  }

  /** That of an unused machine with a tenth of the host or less is taken whole when its application does well. */
  lemma UnusedMachineReachesZero(points: seq<real>, share: real, util: real, rgain: real, tol: real)
    requires Adequate(points) && 0.0 < share <= 0.10 && util <= 0.0 && rgain > 0.30 && 0.0 <= tol < 1.0
    ensures Fc2qNext(points, share, util, Value(rgain), tol) == 0.0
  {
    var cres := (share - util) / share;
    assert cres >= 0.40 by { UnusedResidual(share, util, cres); }
    IdleLoses(points, cres, rgain);
    ApplyIsClamp(share, util, Output(points, cres, rgain).x, tol);
    assert !EssentiallyEqual(share, 0.0, tol);
  }

  lemma UnusedResidual(share: real, util: real, cres: real)
    requires share > 0.0 && util <= 0.0 && cres == (share - util) / share
    ensures cres >= 1.0
  {
    assert cres * share == share - util;
    if cres < 1.0 {
      MulLt(share, cres, 1.0, cres * share, share);
    }
  }

  /** A zero share is left again exactly if the machine is in use and the gain is not in the gap. */
  lemma ZeroIsLeftIff(points: seq<real>, util: real, rgain: real, tol: real)
    requires Adequate(points) && util >= 0.0 && 0.0 <= tol < 1.0
    ensures Fc2qNext(points, 0.0, util, Value(rgain), tol) > 0.0 <==> util > 0.0 && rgain != 0.30
  {
    if util > 0.0 {
      assert Ratio(0.0 - util, 0.0) == Value(-1.0);
      OutputIff(points, -1.0, rgain);
      if rgain != 0.30 {
        ApplyIsClamp(0.0, util, Output(points, -1.0, rgain).x, tol);
      }
    }
  }

  // ---------------------------------------------------------------- runs of controls

  /** What one control sees: utilisations and the gain; or it does nothing, being skipped or failed. */
  datatype Round = Idle | Applied(utils: seq<real>, rgain: Number)

  ghost predicate Rounds(rounds: seq<Round>, n: nat) {
    forall i :: 0 <= i < |rounds| && rounds[i].Applied? ==> |rounds[i].utils| == n
  }

  /** Every machine is in use. */
  ghost predicate Used(r: Round) {
    r.Applied? ==> forall k :: 0 <= k < |r.utils| ==> r.utils[k] > 0.0
  }

  ghost predicate InUnit(fleet: seq<real>) {
    forall k :: 0 <= k < |fleet| ==> 0.0 <= fleet[k] <= 1.0
  }

  ghost predicate AllShares(fleet: seq<real>) {
    forall k :: 0 <= k < |fleet| ==> IsShare(fleet[k])
  }

  function RoundStep(points: seq<real>, tol: real, fleet: seq<real>, r: Round): (fleet': seq<real>)
    requires r.Applied? ==> |r.utils| == |fleet|
    ensures |fleet'| == |fleet|
  {
    match r
    case Idle => fleet
    case Applied(utils, rgain) =>
      seq(|fleet|, k requires 0 <= k < |fleet| == |utils| => Fc2qNext(points, fleet[k], utils[k], rgain, tol))
  }

  function RoundRun(points: seq<real>, tol: real, fleet: seq<real>, rounds: seq<Round>): (fleet': seq<real>)
    requires Rounds(rounds, |fleet|)
    ensures |fleet'| == |fleet|
  {
    if |rounds| == 0 then fleet
    else RoundStep(points, tol, RoundRun(points, tol, fleet, rounds[..|rounds| - 1]), rounds[|rounds| - 1])
  }

  lemma RoundKeepsShares(points: seq<real>, tol: real, fleet: seq<real>, r: Round)
    requires (r.Applied? ==> |r.utils| == |fleet|) && 0.0 <= tol < 1.0
    ensures InUnit(fleet) ==> InUnit(RoundStep(points, tol, fleet, r))
    ensures AllShares(fleet) && Used(r) ==> AllShares(RoundStep(points, tol, fleet, r))
  {
    hide Fc2qNext;
    if r.Applied? {
      forall k | 0 <= k < |fleet|
        ensures 0.0 <= fleet[k] <= 1.0 ==> 0.0 <= RoundStep(points, tol, fleet, r)[k] <= 1.0
        ensures IsShare(fleet[k]) && r.utils[k] > 0.0 ==> IsShare(RoundStep(points, tol, fleet, r)[k])
      {
        if 0.0 <= fleet[k] <= 1.0 {
          NextInUnit(points, fleet[k], r.utils[k], r.rgain, tol);
        }
        if IsShare(fleet[k]) && r.utils[k] > 0.0 {
          UsedStaysPositive(points, fleet[k], r.utils[k], r.rgain, tol);
        }
      }
    }
  }

  /**
   * Over every run of controls all shares stay in [0, 1].  As long as every machine is in use they
   * stay in (0, 1], so that no control divides by zero.
   */
  lemma {:induction false} RunKeepsShares(points: seq<real>, tol: real, fleet: seq<real>, rounds: seq<Round>)
    requires Rounds(rounds, |fleet|) && 0.0 <= tol < 1.0
    ensures InUnit(fleet) ==> InUnit(RoundRun(points, tol, fleet, rounds))
    ensures AllShares(fleet) && (forall i :: 0 <= i < |rounds| ==> Used(rounds[i]))
            ==> AllShares(RoundRun(points, tol, fleet, rounds))
  {
    hide RoundStep, InUnit, AllShares, Used;
    if |rounds| > 0 {
      var front, last := rounds[..|rounds| - 1], rounds[|rounds| - 1];
      RunKeepsShares(points, tol, fleet, front);
      RoundKeepsShares(points, tol, RoundRun(points, tol, fleet, front), last);
      assert forall i :: 0 <= i < |front| ==> front[i] == rounds[i];
    }
  }

  // ---------------------------------------------------------------- the manager

  lemma NextShares(points: seq<real>, shares: seq<real>, utils: seq<real>, rgain: Number, tol: real)
    requires |shares| == |utils| && 0.0 <= tol < 1.0
    ensures forall i :: 0 <= i < |shares| ==>
              Apply(shares[i], DeltaFor(points, shares[i], utils[i], rgain), tol) == Fc2qNext(points, shares[i], utils[i], rgain, tol)
    ensures forall i :: 0 <= i < |shares| && IsShare(shares[i]) && utils[i] > 0.0 ==>
              IsShare(Fc2qNext(points, shares[i], utils[i], rgain, tol))
  {
    forall i | 0 <= i < |shares| && IsShare(shares[i]) && utils[i] > 0.0
      ensures IsShare(Fc2qNext(points, shares[i], utils[i], rgain, tol))
    {
      UsedStaysPositive(points, shares[i], utils[i], rgain, tol);
    }
  }

  class Fc2qManager {
    const points: seq<real>
    const tol: real
    const vms: seq<VirtualMachine>
    var ctlCount: nat
    var ctlSkipCount: nat
    var ctlFailCount: nat
    ghost var applied: nat
    ghost var escaped: nat  // controls left by an exception

    ghost predicate Valid()
      reads this
    {
      && Adequate(points) && 0.0 <= tol < 1.0
      && (forall i, j :: 0 <= i < j < |vms| ==> vms[i] != vms[j])
      && ctlCount == ctlSkipCount + ctlFailCount + applied + escaped
    }

    constructor (points: seq<real>, tol: real, vms: seq<VirtualMachine>)
      requires Adequate(points) && 0.0 <= tol < 1.0
      requires forall i, j :: 0 <= i < j < |vms| ==> vms[i] != vms[j]
      ensures Valid() && this.points == points && this.tol == tol && this.vms == vms
      ensures ctlCount == 0
    {
      this.points, this.tol, this.vms := points, tol, vms;
      ctlCount, ctlSkipCount, ctlFailCount, applied, escaped := 0, 0, 0, 0, 0;
    }

    method Reset()
      requires Valid()
      modifies this
      ensures Valid() && ctlCount == 0
    {
      ctlCount, ctlSkipCount, ctlFailCount, applied, escaped := 0, 0, 0, 0, 0;
    }

    /** First phase: the changes of all machines, unless the engine throws at call number `fault`. */
    method ComputeDeltas(utils: seq<real>, rgain: Number, fault: nat) returns (ok: bool, deltas: seq<Number>)
      requires |utils| == |vms|
      ensures ok <==> fault >= |vms|
      ensures ok ==> |deltas| == |vms|
                     && forall i :: 0 <= i < |vms| ==> deltas[i] == DeltaFor(points, vms[i].cpuShare, utils[i], rgain)
    {
      ok, deltas := false, [];
      for i := 0 to |vms|
        invariant |deltas| == i <= fault
        invariant forall k :: 0 <= k < i ==> deltas[k] == DeltaFor(points, vms[k].cpuShare, utils[k], rgain)
      {
        if fault == i {
          return;
        }
        var oldShare := vms[i].cpuShare;
        var fuzzy := EngineOutput(points, Ratio(oldShare - utils[i], oldShare), rgain);
        deltas := deltas + [DeltaOf(oldShare, utils[i], fuzzy)];
      }
      ok := true;
    }

    /** Second phase: set the shares that change. */
    method ApplyDeltas(deltas: seq<Number>)
      requires |deltas| == |vms| && forall i, j :: 0 <= i < j < |vms| ==> vms[i] != vms[j]
      modifies vms
      ensures forall i :: 0 <= i < |vms| ==>
                vms[i].Get() == old(vms[i].Get()).(cpu := Apply(old(vms[i].cpuShare), deltas[i], tol))
    {
      for i := 0 to |vms|
        invariant forall k :: 0 <= k < i ==>
                    vms[k].Get() == old(vms[k].Get()).(cpu := Apply(old(vms[k].cpuShare), deltas[k], tol))
        invariant forall k :: i <= k < |vms| ==> vms[k].Get() == old(vms[k].Get())
      {
        var oldShare := vms[i].cpuShare;
        if deltas[i].Value? {
          var newShare := Max(Min(oldShare + deltas[i].x, 1.0), 0.0);
          if !EssentiallyEqual(oldShare, newShare, tol) {
            vms[i].cpuShare := newShare;
          }
        }
      }
    }

    /**
     * One control.  With other than one target an exception leaves the method before either phase.
     * If the engine throws on any machine no share changes; nor does any during warm-up.
     */
    method Control(utils: seq<real>, targets: seq<Target>, fault: nat) returns (thrown: bool)
      requires Valid() && |utils| == |vms|
      modifies this, vms
      ensures Valid() && ctlCount == old(ctlCount) + 1
      ensures thrown <==> ctlCount > 5 && (forall i :: 0 <= i < |targets| ==> targets[i].count > 0) && |targets| != 1
      ensures var skipped, failed := Skipped(targets, ctlCount), fault < |vms|;
              && ctlSkipCount == old(ctlSkipCount) + (if skipped then 1 else 0)
              && ctlFailCount == old(ctlFailCount) + (if !skipped && !thrown && failed then 1 else 0)
              && applied == old(applied) + (if !skipped && !thrown && !failed then 1 else 0)
              && escaped == old(escaped) + (if thrown then 1 else 0)
      ensures forall i :: 0 <= i < |vms| ==>
                vms[i].Get() == if Skipped(targets, ctlCount) || thrown || fault < |vms| then old(vms[i].Get())
                                else old(vms[i].Get()).(cpu := Fc2qNext(points, old(vms[i].cpuShare), utils[i],
                                                                        TargetError(targets[0]), tol))
      ensures (forall i :: 0 <= i < |vms| ==> IsShare(old(vms[i].cpuShare)) && utils[i] > 0.0)
              ==> forall i :: 0 <= i < |vms| ==> IsShare(vms[i].cpuShare)
    {
      hide Fc2qNext;
      thrown := false;
      ctlCount := ctlCount + 1;
      var skip, rgains := ReadGains(targets);
      if ctlCount <= CONTROL_WARMUP_SIZE {
        skip := true;
      }
      if skip {
        ctlSkipCount := ctlSkipCount + 1;
      } else if |rgains| != 1 {
        thrown := true;
        escaped := escaped + 1;
      } else {
        var ok, deltas := ComputeDeltas(utils, rgains[0], fault);
        if ok {
          ghost var before := seq(|vms|, i requires 0 <= i < |vms| reads vms => vms[i].cpuShare);
          ApplyDeltas(deltas);
          applied := applied + 1;
          NextShares(points, before, utils, rgains[0], tol);
        } else {
          ctlFailCount := ctlFailCount + 1;
        }
      }
    }

    method ReadGains(targets: seq<Target>) returns (skip: bool, rgains: seq<Number>)
      ensures skip <==> exists i :: 0 <= i < |targets| && targets[i].count == 0
      ensures !skip ==> |rgains| == |targets| && forall i :: 0 <= i < |targets| ==> rgains[i] == TargetError(targets[i])
    {
      skip, rgains := false, [];
      for i := 0 to |targets|
        invariant |rgains| == i && forall k :: 0 <= k < i ==> targets[k].count > 0 && rgains[k] == TargetError(targets[k])
      {
        if targets[i].count == 0 {
          skip := true;
          return;
        }
        rgains := rgains + [TargetError(targets[i])];
      }
    }
  }
}
