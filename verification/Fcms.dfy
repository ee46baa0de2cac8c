/**
 * The FCMS controller: at each control it decides, for every virtual machine, the CPU share and
 * then the memory share, the second with regard to the first.
 */
module Fcms {
  import opened Reals
  import opened Fuzzy
  import opened FcmsRules
  import opened FcmsShares
  import opened VirtualMachines

  const CONTROL_WARMUP_SIZE: nat := 5

  /** Smoothed utilisations of one machine. */
  datatype Load = Load(cpu: real, mem: real)

  ghost predicate ValidShares(s: Shares) {
    IsShare(s.cpu) && IsShare(s.mem)
  }

  // ---------------------------------------------------------------- one machine

  /** What the engines output; an error that is not a number fires no rule. */
  function CpuOutput(points: seq<real>, cres: real, err: Number): Number {
    if err.Value? then DeltaC(points, cres, err.x) else NaN
  }

  function MemOutput(points: seq<real>, cres: real, mres: real, err: Number): Number {
    if err.Value? then DeltaM(points, cres, mres, err.x) else NaN
  }

  function CpuNext(points: seq<real>, s: Shares, load: Load, err: Number): real
    requires ValidShares(s)
  {
    match CpuOutput(points, (s.cpu - load.cpu) / s.cpu, err)
    case Value(f) => NextShareOf(s.cpu, load.cpu, f)
    case NaN => s.cpu
  }

  function MemNext(points: seq<real>, s: Shares, cpu: real, load: Load, err: Number): real
    requires ValidShares(s) && cpu != 0.0
  {
    match MemOutput(points, (cpu - load.cpu) / cpu, (s.mem - load.mem) / s.mem, err)
    case Value(f) => NextShareOf(s.mem, load.mem, f)
    case NaN => s.mem
  }

  /** A CPU decision keeps a share a share, and leaves no zero to divide by. */
  lemma CpuNextShare(points: seq<real>, s: Shares, load: Load, err: Number)
    requires Adequate(points) && ValidShares(s)
    ensures IsShare(CpuNext(points, s, load, err))
    ensures err.Value? ==> LoadFloor(load.cpu) <= (1.0 + RESOURCE_SHARE_TOL) * CpuNext(points, s, load, err)
  {
    if err.Value? {
      var cres := (s.cpu - load.cpu) / s.cpu;
      DeltaCTotal(points, cres, err.x);
      NextShare(s.cpu, load.cpu, DeltaC(points, cres, err.x).x);
    }
  }

  lemma MemNextShare(points: seq<real>, s: Shares, cpu: real, load: Load, err: Number)
    requires Adequate(points) && ValidShares(s) && IsShare(cpu)
    ensures IsShare(MemNext(points, s, cpu, load, err))
    ensures err.Value? ==> LoadFloor(load.mem) <= (1.0 + RESOURCE_SHARE_TOL) * MemNext(points, s, cpu, load, err)
  {
    if err.Value? {
      var cres, mres := (cpu - load.cpu) / cpu, (s.mem - load.mem) / s.mem;
      DeltaMTotal(points, cres, mres, err.x);
      NextShare(s.mem, load.mem, DeltaM(points, cres, mres, err.x).x);
    }
  }

  /**
   * The decision for machine i when the fuzzy engine fails at call number `fault`: each machine
   * makes a CPU call and then a memory call, and what precedes the failure stays applied.
   */
  function VmNext(points: seq<real>, s: Shares, load: Load, err: Number, i: nat, fault: nat): Shares
    requires Adequate(points) && ValidShares(s)
  {
    if fault <= 2 * i then s
    else
      CpuNextShare(points, s, load, err);
      var cpu := CpuNext(points, s, load, err);
      if fault == 2 * i + 1 then s.(cpu := cpu) else Shares(cpu, MemNext(points, s, cpu, load, err))
  }

  lemma VmNextValid(points: seq<real>, s: Shares, load: Load, err: Number, i: nat, fault: nat)
    requires Adequate(points) && ValidShares(s)
    ensures ValidShares(VmNext(points, s, load, err, i, fault))
  {
    CpuNextShare(points, s, load, err);
    MemNextShare(points, s, CpuNext(points, s, load, err), load, err);
  }

  // ---------------------------------------------------------------- the error signal

  /** One performance target: how many observations were made, their estimate, and the reference. */
  datatype Target = Target(responseTime: bool, count: nat, estimate: real, reference: real)

  function TargetError(t: Target): Number {
    if t.responseTime then Ratio(t.reference - t.estimate, t.reference) else Ratio(t.estimate - t.reference, t.reference)
  }

  /** The error of the last target; not a number without targets. */
  function LastError(targets: seq<Target>): Number {
    if |targets| == 0 then NaN else TargetError(targets[|targets| - 1])
  }

  /** Control is skipped if some target has no observations, and during warm-up. */
  predicate Skipped(targets: seq<Target>, ctlCount: nat) {
    ctlCount <= 5 || exists i :: 0 <= i < |targets| && targets[i].count == 0
  }

  // ---------------------------------------------------------------- the manager

  class FcmsManager {
    const points: seq<real>
    const vms: seq<VirtualMachine>
    var ctlCount: nat
    var ctlSkipCount: nat
    var ctlFailCount: nat
    ghost var applied: nat

    ghost predicate Valid()
      reads this, vms
    {
      && Adequate(points)
      && (forall i, j :: 0 <= i < j < |vms| ==> vms[i] != vms[j])
      && (forall i :: 0 <= i < |vms| ==> ValidShares(vms[i].Get()))
      && ctlCount == ctlSkipCount + ctlFailCount + applied
    }

    constructor (points: seq<real>, vms: seq<VirtualMachine>)
      requires Adequate(points)
      requires forall i, j :: 0 <= i < j < |vms| ==> vms[i] != vms[j]
      requires forall i :: 0 <= i < |vms| ==> ValidShares(vms[i].Get())
      ensures Valid() && this.points == points && this.vms == vms
      ensures ctlCount == 0
    {
      this.points, this.vms := points, vms;
      ctlCount, ctlSkipCount, ctlFailCount, applied := 0, 0, 0, 0;
    }

    method Reset()
      requires Valid()
      modifies this
      ensures Valid() && ctlCount == 0
    {
      ctlCount, ctlSkipCount, ctlFailCount, applied := 0, 0, 0, 0;
    }

    /** The error of the last target, unless some target has no observations. */
    method ReadTargets(targets: seq<Target>) returns (skip: bool, err: Number)
      ensures skip <==> exists i :: 0 <= i < |targets| && targets[i].count == 0
      ensures !skip ==> err == LastError(targets)
    {
      skip, err := false, NaN;
      for i := 0 to |targets|
        invariant !skip && forall k :: 0 <= k < i ==> targets[k].count > 0
        invariant err == LastError(targets[..i])
      {
        if targets[i].count > 0 {
          err := TargetError(targets[i]);
        } else {
          skip := true;
          return;
        }
      }
      assert targets[..|targets|] == targets;
    }

    /** Decide one share, and set it unless it would stay essentially the same. */
    method DecideCpu(i: nat, load: Load, err: Number)
      requires i < |vms| && ValidShares(vms[i].Get())
      modifies vms[i]
      ensures vms[i].Get() == old(vms[i].Get()).(cpu := CpuNext(points, old(vms[i].Get()), load, err))
    {
      var oldShare := vms[i].cpuShare;
      var fuzzy: Number := CpuOutput(points, (oldShare - load.cpu) / oldShare, err);
      if fuzzy.Value? {
        var newShare := Computed(oldShare, load.cpu, fuzzy.x);
        if !EssentiallyEqual(oldShare, newShare, RESOURCE_SHARE_TOL) {
          vms[i].cpuShare := newShare;
        }
      }
    }

    method DecideMem(i: nat, load: Load, err: Number)
      requires i < |vms| && ValidShares(vms[i].Get())
      modifies vms[i]
      ensures vms[i].Get() == old(vms[i].Get()).(mem := MemNext(points, old(vms[i].Get()), old(vms[i].cpuShare), load, err))
    {
      var cpuShare := vms[i].cpuShare;
      var oldShare := vms[i].memShare;
      var fuzzy: Number := MemOutput(points, (cpuShare - load.cpu) / cpuShare, (oldShare - load.mem) / oldShare, err);
      if fuzzy.Value? {
        var newShare := Computed(oldShare, load.mem, fuzzy.x);
        if !EssentiallyEqual(oldShare, newShare, RESOURCE_SHARE_TOL) {
          vms[i].memShare := newShare;
        }
      }
    }

    /** One control; the fuzzy engine throws at call number `fault`, if it gets that far. */
    method Control(loads: seq<Load>, targets: seq<Target>, fault: nat)
      requires Valid() && |loads| == |vms|
      modifies this`ctlCount, this`ctlSkipCount, this`ctlFailCount, this`applied, vms
      ensures Valid() && ctlCount == old(ctlCount) + 1
      ensures var skipped, failed := Skipped(targets, ctlCount), fault < 2 * |vms|;
              && ctlSkipCount == old(ctlSkipCount) + (if skipped then 1 else 0)
              && ctlFailCount == old(ctlFailCount) + (if !skipped && failed then 1 else 0)
      ensures forall i :: 0 <= i < |vms| ==>
                vms[i].Get() == if Skipped(targets, ctlCount) then old(vms[i].Get())
                                else VmNext(points, old(vms[i].Get()), loads[i], LastError(targets), i, fault)
    {
      ctlCount := ctlCount + 1;
      var skip, err := ReadTargets(targets);
      if ctlCount <= CONTROL_WARMUP_SIZE {
        skip := true;
      }
      if !skip {
        var ok := DecideAll(loads, err, fault);
        if ok {
          applied := applied + 1;
        } else {
          ctlFailCount := ctlFailCount + 1;
        }
      } else {
        ctlSkipCount := ctlSkipCount + 1;
      }
    }

    /** The guarded block: machine by machine, until the engine throws. */
    method DecideAll(loads: seq<Load>, err: Number, fault: nat) returns (ok: bool)
      requires Adequate(points) && |loads| == |vms|
      requires forall i, j :: 0 <= i < j < |vms| ==> vms[i] != vms[j]
      requires forall i :: 0 <= i < |vms| ==> ValidShares(vms[i].Get())
      modifies vms
      ensures ok <==> fault >= 2 * |vms|
      ensures forall i :: 0 <= i < |vms| ==>
                ValidShares(vms[i].Get()) && vms[i].Get() == VmNext(points, old(vms[i].Get()), loads[i], err, i, fault)
    {
      ok := false;
      for i := 0 to |vms|
        invariant 2 * i <= fault
        invariant forall k :: 0 <= k < i ==> vms[k].Get() == VmNext(points, old(vms[k].Get()), loads[k], err, k, fault)
        invariant forall k :: i <= k < |vms| ==> vms[k].Get() == old(vms[k].Get())
        invariant forall k :: 0 <= k < |vms| ==> ValidShares(vms[k].Get())
      {
        DecideMachine(i, loads[i], err, fault);
        if fault < 2 * i + 2 {
          // thrown while deciding machine i
          assert forall k :: 0 <= k < |vms| && k != i ==> vms[k] != vms[i];
          return;
        }
      }
      ok := true;
    }

    /** The CPU decision and then the memory decision of one machine, as far as the engine gets. */
    method DecideMachine(i: nat, load: Load, err: Number, fault: nat)
      requires Adequate(points) && i < |vms|
      requires forall j, k :: 0 <= j < k < |vms| ==> vms[j] != vms[k]
      requires forall k :: 0 <= k < |vms| ==> ValidShares(vms[k].Get())
      modifies vms[i]
      ensures vms[i].Get() == VmNext(points, old(vms[i].Get()), load, err, i, fault)
      ensures ValidShares(vms[i].Get())
    {
      VmNextValid(points, vms[i].Get(), load, err, i, fault);
      CpuNextShare(points, vms[i].Get(), load, err);
      if fault > 2 * i {
        DecideCpu(i, load, err);
        if fault > 2 * i + 1 {
          DecideMem(i, load, err);
        }
      }
    }
  }

  // ---------------------------------------------------------------- runs of controls

  /** What one control does to the shares: nothing when skipped, else the decisions up to the fault. */
  datatype Event = Event(skip: bool, loads: seq<Load>, err: Number, fault: nat)

  ghost predicate AllValid(fleet: seq<Shares>) {
    forall i :: 0 <= i < |fleet| ==> ValidShares(fleet[i])
  }

  function FleetStep(points: seq<real>, fleet: seq<Shares>, e: Event): (fleet': seq<Shares>)
    requires Adequate(points) && AllValid(fleet) && |e.loads| == |fleet|
    ensures |fleet'| == |fleet| && AllValid(fleet')
  {
    if e.skip then fleet
    else
      var fleet' := seq(|fleet|, i requires 0 <= i < |fleet| && AllValid(fleet) && |e.loads| == |fleet| && Adequate(points)
                                   => VmNext(points, fleet[i], e.loads[i], e.err, i, e.fault));
      assert AllValid(fleet') by {
        forall i | 0 <= i < |fleet|
          ensures ValidShares(fleet'[i])
        {
          VmNextValid(points, fleet[i], e.loads[i], e.err, i, e.fault);
        }
      }
      fleet'
  }

  ghost predicate Loaded(events: seq<Event>, n: nat) {
    forall i :: 0 <= i < |events| ==> |events[i].loads| == n
  }

  /** Over every run, skipped, applied or cut short by the engine, every share stays in (0, 1]. */
  function FleetRun(points: seq<real>, fleet: seq<Shares>, events: seq<Event>): (fleet': seq<Shares>)
    requires Adequate(points) && AllValid(fleet) && Loaded(events, |fleet|)
    ensures |fleet'| == |fleet| && AllValid(fleet')
  {
    if |events| == 0 then fleet
    else FleetStep(points, FleetRun(points, fleet, events[..|events| - 1]), events[|events| - 1])
  }

  /** A control that was applied gives every machine what its load calls for, up to the tolerance. */
  lemma AppliedCoversLoad(points: seq<real>, fleet: seq<Shares>, e: Event, i: nat)
    requires Adequate(points) && AllValid(fleet) && |e.loads| == |fleet| && i < |fleet|
    requires !e.skip && e.err.Value? && e.fault >= 2 * |fleet|
    ensures var s := FleetStep(points, fleet, e)[i];
            && LoadFloor(e.loads[i].cpu) <= (1.0 + RESOURCE_SHARE_TOL) * s.cpu
            && LoadFloor(e.loads[i].mem) <= (1.0 + RESOURCE_SHARE_TOL) * s.mem
  {
    var s := fleet[i];
    CpuNextShare(points, s, e.loads[i], e.err);
    MemNextShare(points, s, CpuNext(points, s, e.loads[i], e.err), e.loads[i], e.err);
  }

  // ---------------------------------------------------------------- a starved machine

  /** At least nine tenths of the CPU share are in use. */
  predicate Starved(s: Shares, load: Load) {
    load.cpu >= 0.9 * s.cpu
  }

  lemma StarvedStep(points: seq<real>, s: Shares, load: Load, err: real)
    requires Adequate(points) && ValidShares(s) && Starved(s, load)
    ensures var n := CpuNext(points, s, load, Value(err));
            && (Full(n) || Cell(s.cpu) + 1 <= Cell(n) <= 99)
            && (Full(s.cpu) ==> Full(n))
  {
    var cres := (s.cpu - load.cpu) / s.cpu;
    ResidualSmall(s.cpu, load.cpu, cres);
    StarvedGrows(points, cres, err);
    GrowthStep(s.cpu, load.cpu, DeltaC(points, cres, err).x);
  }

  lemma ResidualSmall(share: real, util: real, cres: real)
    requires share > 0.0 && util >= 0.9 * share && cres == (share - util) / share
    ensures cres <= 0.10
  {
    assert cres * share == share - util;
    if cres > 0.10 {
      MulLt(share, 0.10, cres, 0.10 * share, cres * share);
    }
  }

  /**
   * The memory decision looks at the CPU share just decided, not at the old one: with CPU to spare
   * after the CPU decision, memory nearly used up and performance missed, memory grows a cell.
   */
  lemma MemoryStep(points: seq<real>, s: Shares, load: Load, err: real)
    requires Adequate(points) && ValidShares(s)
    requires load.cpu <= 0.75 * CpuNext(points, s, load, Value(err))
    requires load.mem >= 0.9 * s.mem && err <= 0.10
    ensures var n := VmNext(points, s, load, Value(err), 0, 2).mem;
            Full(n) || Cell(s.mem) + 1 <= Cell(n) <= 99
  {
    CpuNextShare(points, s, load, Value(err));
    var cpu := CpuNext(points, s, load, Value(err));
    var cres, mres := (cpu - load.cpu) / cpu, (s.mem - load.mem) / s.mem;
    ResidualLarge(cpu, load.cpu, cres);
    ResidualSmall(s.mem, load.mem, mres);
    StarvedMemoryGrows(points, cres, mres, err);
    hide CpuNext, DeltaM, NextShareOf, Cell, Full, Adequate;
    GrowthStep(s.mem, load.mem, DeltaM(points, cres, mres, err).x);
  }

  lemma ResidualLarge(share: real, util: real, cres: real)
    requires share > 0.0 && util <= 0.75 * share && cres == (share - util) / share
    ensures cres >= 0.25
  {
    assert cres * share == share - util;
    if cres < 0.25 {
      MulLt(share, cres, 0.25, cres * share, 0.25 * share);
    }
  }

  /** One machine under controls that reach both of its decisions. */
  function MachineRun(points: seq<real>, s: Shares, loads: seq<Load>, errs: seq<real>): (s': Shares)
    requires Adequate(points) && ValidShares(s) && |loads| == |errs|
    ensures ValidShares(s')
  {
    if |loads| == 0 then s
    else
      var n := |loads| - 1;
      var p := MachineRun(points, s, loads[..n], errs[..n]);
      VmNextValid(points, p, loads[n], Value(errs[n]), 0, 2);
      VmNext(points, p, loads[n], Value(errs[n]), 0, 2)
  }

  ghost predicate AlwaysStarved(points: seq<real>, s: Shares, loads: seq<Load>, errs: seq<real>)
    requires Adequate(points) && ValidShares(s) && |loads| == |errs|
  {
    |loads| > 0 ==>
      var n := |loads| - 1;
      && AlwaysStarved(points, s, loads[..n], errs[..n])
      && Starved(MachineRun(points, s, loads[..n], errs[..n]), loads[n])
  }

  /** A machine that stays starved climbs at least one cell per control until its share is full. */
  lemma {:induction false} StarvedClimbs(points: seq<real>, s: Shares, loads: seq<Load>, errs: seq<real>)
    requires Adequate(points) && ValidShares(s) && |loads| == |errs|
    requires AlwaysStarved(points, s, loads, errs)
    ensures var s' := MachineRun(points, s, loads, errs);
            Full(s'.cpu) || Cell(s.cpu) + |loads| <= Cell(s'.cpu) <= 99 || |loads| == 0
  {
    if |loads| > 0 {
      var n := |loads| - 1;
      StarvedClimbs(points, s, loads[..n], errs[..n]);
      StarvedStep(points, MachineRun(points, s, loads[..n], errs[..n]), loads[n], errs[n]);
    }
  }

  /** So a hundred starved controls in a row are enough to give it the whole machine, whatever the errors. */
  lemma HundredControlsSuffice(points: seq<real>, s: Shares, loads: seq<Load>, errs: seq<real>)
    requires Adequate(points) && ValidShares(s) && |loads| == |errs| >= 100
    requires AlwaysStarved(points, s, loads, errs)
    ensures Full(MachineRun(points, s, loads, errs).cpu)
  {
    StarvedClimbs(points, s, loads, errs);
    assert Cell(s.cpu) >= 0;
  }
}
