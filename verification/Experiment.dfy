/**
 * The run of an experiment on one application: save the shares of its virtual machines, let the
 * sampler and controller threads act under a mutex until the driver is done, and restore them.
 */
module Experiment {
  import opened VirtualMachines

  // ---------------------------------------------------------------- saving and restoring

  /** One stack of saved shares per machine; the top is at the end. */
  type Stacks = map<Id, seq<real>>

  /** The shares of the machines, by identifier. */
  type Fleet = map<Id, Shares>

  function StackOf(st: Stacks, id: Id): seq<real> {
    if id in st then st[id] else []
  }

  /** The stacks after saving: each machine's CPU share and then its memory share on top. */
  function Pushed(st: Stacks, fleet: Fleet): Stacks {
    map id | id in st.Keys + fleet.Keys ::
      if id in fleet then StackOf(st, id) + [fleet[id].cpu, fleet[id].mem] else st[id]
  }

  /** Every stack there is for one of these machines holds a saved pair. */
  ghost predicate Restorable(st: Stacks, ids: set<Id>) {
    forall id :: id in ids && id in st ==> |st[id]| >= 2
  }

  /** The stacks after restoring. */
  ghost function Popped(st: Stacks, ids: set<Id>): Stacks
    requires Restorable(st, ids)
  {
    map id | id in st :: if id in ids then st[id][..|st[id]| - 2] else st[id]
  }

  ghost function PoppedOne(st: Stacks, id: Id): Stacks
    requires id in st ==> |st[id]| >= 2
  {
    if id in st then st[id := st[id][..|st[id]| - 2]] else st
  }

  /** The saved pair of a machine; one for which nothing was saved keeps its own shares. */
  function Top(st: Stacks, id: Id, own: Shares): Shares
    requires id in st ==> |st[id]| >= 2
  {
    if id in st then Shares(st[id][|st[id]| - 2], st[id][|st[id]| - 1]) else own
  }

  /** The shares after restoring. */
  ghost function Tops(st: Stacks, fleet: Fleet): Fleet
    requires Restorable(st, fleet.Keys)
  {
    map id | id in fleet :: Top(st, id, fleet[id])
  }

  /** Two collections of stacks that hold the same; an empty stack is as good as none. */
  ghost predicate SameStacks(st: Stacks, st': Stacks) {
    forall id :: StackOf(st, id) == StackOf(st', id)
  }

  /** The memory share lies on top of the CPU share. */
  lemma TopIs(st: Stacks, id: Id, rest: seq<real>, cpu: real, mem: real, own: Shares)
    requires id in st && st[id] == rest + [cpu, mem]
    ensures Top(st, id, own) == Shares(cpu, mem) && PoppedOne(st, id)[id] == rest
  {
    assert (rest + [cpu, mem])[..|rest|] == rest;
  }

  lemma PushedAt(st: Stacks, fleet: Fleet, id: Id)
    ensures id in fleet ==> id in Pushed(st, fleet) && Pushed(st, fleet)[id] == StackOf(st, id) + [fleet[id].cpu, fleet[id].mem]
    ensures id !in fleet ==> StackOf(Pushed(st, fleet), id) == StackOf(st, id)
  {
  }

  lemma PoppedAt(st: Stacks, ids: set<Id>, id: Id)
    requires Restorable(st, ids)
    ensures StackOf(Popped(st, ids), id)
            == if id in ids && id in st then st[id][..|st[id]| - 2] else StackOf(st, id)
  {
  }

  /** Restoring undoes saving, whatever was on the stacks and whatever became of the shares in between. */
  lemma RestoreUndoesSave(st: Stacks, saved: Fleet, now: Fleet)
    requires saved.Keys == now.Keys
    ensures Restorable(Pushed(st, saved), now.Keys)
    ensures Tops(Pushed(st, saved), now) == saved
    ensures SameStacks(Popped(Pushed(st, saved), now.Keys), st)
  {
    hide Pushed;
    var up := Pushed(st, saved);
    forall id
      ensures id in now.Keys ==> id in up && up[id] == StackOf(st, id) + [saved[id].cpu, saved[id].mem]
      ensures id !in now.Keys ==> StackOf(up, id) == StackOf(st, id)
    {
      PushedAt(st, saved, id);
    }
    RestoreOf(st, saved, now, up);
  }

  lemma RestoreOf(st: Stacks, saved: Fleet, now: Fleet, up: Stacks)
    requires saved.Keys == now.Keys
    requires forall id :: id in now.Keys ==> id in up && up[id] == StackOf(st, id) + [saved[id].cpu, saved[id].mem]
    requires forall id :: id !in now.Keys ==> StackOf(up, id) == StackOf(st, id)
    ensures Restorable(up, now.Keys) && Tops(up, now) == saved
    ensures SameStacks(Popped(up, now.Keys), st)
  {
    hide Popped;
    assert Restorable(up, now.Keys);
    forall id
      ensures StackOf(Popped(up, now.Keys), id) == StackOf(st, id)
    {
      PoppedAt(up, now.Keys, id);
    }
  }

  ghost predicate DistinctIds(vms: seq<VirtualMachine>) {
    forall i, j :: 0 <= i < j < |vms| ==> vms[i].id != vms[j].id
  }

  ghost function FleetOf(vms: seq<VirtualMachine>): Fleet
    reads vms
  {
    if |vms| == 0 then map[]
    else FleetOf(vms[..|vms| - 1])[vms[|vms| - 1].id := vms[|vms| - 1].Get()]
  }

  function Ids(vms: seq<VirtualMachine>): set<Id> {
    if |vms| == 0 then {} else Ids(vms[..|vms| - 1]) + {vms[|vms| - 1].id}
  }

  lemma {:induction false} FleetKeys(vms: seq<VirtualMachine>)
    ensures FleetOf(vms).Keys == Ids(vms)
    ensures forall id :: id in Ids(vms) <==> exists i :: 0 <= i < |vms| && vms[i].id == id
  {
    if |vms| > 0 {
      var n := |vms| - 1;
      FleetKeys(vms[..n]);
      forall id
        ensures id in Ids(vms) <==> exists i :: 0 <= i < |vms| && vms[i].id == id
      {
        if i :| 0 <= i < n && vms[..n][i].id == id {
          assert vms[i].id == id;
        }
        if i :| 0 <= i < |vms| && vms[i].id == id && i < n {
          assert vms[..n][i].id == id;
        }
        assert vms[n].id in Ids(vms);
      }
    }
  }

  lemma {:induction false} FleetAt(vms: seq<VirtualMachine>)
    requires DistinctIds(vms)
    ensures forall i :: 0 <= i < |vms| ==> vms[i].id in FleetOf(vms) && FleetOf(vms)[vms[i].id] == vms[i].Get()
  {
    if |vms| > 0 {
      var front := vms[..|vms| - 1];
      FleetAt(front);
      assert forall i :: 0 <= i < |front| ==> front[i] == vms[i];
    }
  }

  lemma PrefixFleet(vms: seq<VirtualMachine>, i: nat)
    requires DistinctIds(vms) && i < |vms|
    ensures FleetOf(vms[..i + 1]) == FleetOf(vms[..i])[vms[i].id := vms[i].Get()]
    ensures Ids(vms[..i + 1]) == Ids(vms[..i]) + {vms[i].id}
    ensures vms[i].id !in FleetOf(vms[..i]) && vms[i].id !in Ids(vms[..i])
  {
    assert vms[..i + 1][..i] == vms[..i];
    FleetKeys(vms[..i]);
  }

  lemma PushOneMore(st: Stacks, fleet: Fleet, id: Id, s: Shares)
    requires id !in fleet
    ensures Pushed(st, fleet)[id := StackOf(Pushed(st, fleet), id) + [s.cpu, s.mem]] == Pushed(st, fleet[id := s])
  {
  }

  lemma PopOneMore(st: Stacks, ids: set<Id>, id: Id)
    requires id !in ids && Restorable(st, ids + {id})
    ensures Restorable(st, ids)
    ensures id in Popped(st, ids) <==> id in st
    ensures id in st ==> Popped(st, ids)[id] == st[id]
    ensures Popped(st, ids + {id}) == PoppedOne(Popped(st, ids), id)
  {
  }

  lemma TopKept(st: Stacks, st': Stacks, id: Id, own: Shares)
    requires (id in st <==> id in st') && (id in st ==> st[id] == st'[id] && |st[id]| >= 2)
    ensures Top(st, id, own) == Top(st', id, own)
  {
  }

  lemma NoIds(vms: seq<VirtualMachine>)
    ensures Ids(vms[..0]) == {}
  {
  }

  lemma PopNone(st: Stacks)
    ensures Popped(st, {}) == st
  {
  }

  /** Shares and identifiers determine the fleet. */
  lemma FleetIs(vms: seq<VirtualMachine>, fleet: Fleet)
    requires DistinctIds(vms) && fleet.Keys == Ids(vms)
    requires forall i :: 0 <= i < |vms| ==> vms[i].id in fleet && fleet[vms[i].id] == vms[i].Get()
    ensures FleetOf(vms) == fleet
  {
    FleetAt(vms);
    FleetKeys(vms);
    forall id | id in fleet
      ensures FleetOf(vms)[id] == fleet[id]
    {
      var i :| 0 <= i < |vms| && vms[i].id == id;
    }
  }

  class AppState {
    const vms: seq<VirtualMachine>
    const restoreState: bool
    var running: bool
    var vmStates: Stacks

    ghost predicate Valid()
      reads this
    {
      DistinctIds(vms)
    }

    predicate On()
      reads this
    {
      restoreState && running
    }

    constructor (vms: seq<VirtualMachine>, restoreState: bool)
      requires DistinctIds(vms)
      ensures Valid() && this.vms == vms && this.restoreState == restoreState
      ensures !running && vmStates == map[]
    {
      this.vms, this.restoreState := vms, restoreState;
      running, vmStates := false, map[];
    }

    /** Push each machine's CPU share and then its memory share. */
    method Save()
      requires Valid()
      modifies this`vmStates
      ensures vmStates == if On() then Pushed(old(vmStates), FleetOf(vms)) else old(vmStates)
    {
      if !restoreState || !running {
        return;
      }
      ghost var st := vmStates;
      for i := 0 to |vms|
        invariant vmStates == Pushed(st, FleetOf(vms[..i]))
      {
        PrefixFleet(vms, i);
        PushOneMore(st, FleetOf(vms[..i]), vms[i].id, vms[i].Get());
        PushShares(vms[i].id, vms[i].cpuShare, vms[i].memShare);
      }
      assert vms[..|vms|] == vms;
    }

    method PushShares(id: Id, cpu: real, mem: real)
      modifies this`vmStates
      ensures vmStates == old(vmStates)[id := StackOf(old(vmStates), id) + [cpu, mem]]
    {
      vmStates := vmStates[id := StackOf(vmStates, id) + [cpu]];
      vmStates := vmStates[id := StackOf(vmStates, id) + [mem]];
      assert StackOf(old(vmStates), id) + [cpu] + [mem] == StackOf(old(vmStates), id) + [cpu, mem];
    }

    /** Pop each machine's memory share and then its CPU share, if anything was pushed for it. */
    method Restore()
      requires Valid()
      requires On() ==> Restorable(vmStates, FleetOf(vms).Keys)
      modifies this`vmStates, vms
      ensures vmStates == if On() then Popped(old(vmStates), old(FleetOf(vms)).Keys) else old(vmStates)
      ensures FleetOf(vms) == if On() then Tops(old(vmStates), old(FleetOf(vms))) else old(FleetOf(vms))
    {
      if !restoreState || !running {
        return;
      }
      RestoreAll(vmStates, FleetOf(vms));
    }

    method RestoreAll(ghost st: Stacks, ghost fleet: Fleet)
      requires Valid() && vmStates == st && FleetOf(vms) == fleet && Restorable(st, fleet.Keys)
      modifies this`vmStates, vms
      ensures vmStates == Popped(st, fleet.Keys) && FleetOf(vms) == Tops(st, fleet)
    {
      hide Popped, PoppedOne, Top, FleetOf, Ids;
      FleetAt(vms);
      FleetKeys(vms);
      PopNone(st);
      NoIds(vms);
      for i := 0 to |vms|
        invariant Ids(vms[..i]) <= fleet.Keys && vmStates == Popped(st, Ids(vms[..i]))
        invariant forall k :: i <= k < |vms| ==> vms[k].Get() == fleet[vms[k].id]
        invariant forall k :: 0 <= k < i ==> vms[k].Get() == Top(st, vms[k].id, fleet[vms[k].id])
      {
        PrefixFleet(vms, i);
        PopOneMore(st, Ids(vms[..i]), vms[i].id);
        assert forall k :: 0 <= k < |vms| && k != i ==> vms[k] != vms[i];
        TopKept(st, vmStates, vms[i].id, fleet[vms[i].id]);
        RestoreMachine(vms[i]);
      }
      assert vms[..|vms|] == vms;
      FleetIs(vms, Tops(st, fleet));
    }

    method RestoreMachine(vm: VirtualMachine)
      requires vm.id in vmStates ==> |vmStates[vm.id]| >= 2
      modifies this`vmStates, vm
      ensures vm.Get() == Top(old(vmStates), vm.id, old(vm.Get()))
      ensures vmStates == PoppedOne(old(vmStates), vm.id)
    {
      if vm.id in vmStates {
        var stack := vmStates[vm.id];
        vm.memShare := stack[|stack| - 1];
        vmStates := vmStates[vm.id := stack[..|stack| - 1]];
        stack := vmStates[vm.id];
        vm.cpuShare := stack[|stack| - 1];
        vmStates := vmStates[vm.id := stack[..|stack| - 1]];
        assert stack[..|stack| - 1] == old(vmStates)[vm.id][..|stack| - 1];
      }
    }

    /** What the managers may do to the machines in between. */
    method Manage(shares: seq<Shares>)
      requires Valid() && |shares| == |vms|
      modifies vms
      ensures forall i :: 0 <= i < |vms| ==> vms[i].Get() == shares[i]
    {
      for i := 0 to |vms|
        invariant forall k :: 0 <= k < i ==> vms[k].Get() == shares[k]
      {
        assert forall k :: 0 <= k < i ==> vms[k].id != vms[i].id;
        vms[i].cpuShare := shares[i].cpu;
        vms[i].memShare := shares[i].mem;
      }
    }

    method ManageAll(controls: seq<seq<Shares>>)
      requires Valid() && forall k :: 0 <= k < |controls| ==> |controls[k]| == |vms|
      modifies vms
      ensures forall i :: 0 <= i < |vms| ==>
                vms[i].Get() == if |controls| == 0 then old(vms[i].Get()) else controls[|controls| - 1][i]
    {
      for k := 0 to |controls|
        invariant forall i :: 0 <= i < |vms| ==>
                    vms[i].Get() == if k == 0 then old(vms[i].Get()) else controls[k - 1][i]
      {
        Manage(controls[k]);
      }
    }

    /**
     * A run, with the controls that take place in it.  With state restoring on, every share and
     * every stack end as they began; with it off, the machines keep what the last control set.
     */
    method Run(controls: seq<seq<Shares>>)
      requires Valid() && forall k :: 0 <= k < |controls| ==> |controls[k]| == |vms|
      modifies this`running, this`vmStates, vms
      ensures Valid() && !running
      ensures restoreState ==> FleetOf(vms) == old(FleetOf(vms)) && SameStacks(vmStates, old(vmStates))
      ensures !restoreState ==>
                vmStates == old(vmStates)
                && forall i :: 0 <= i < |vms| ==>
                     vms[i].Get() == if |controls| == 0 then old(vms[i].Get()) else controls[|controls| - 1][i]
    {
      hide Pushed, Popped, Tops, SameStacks, FleetOf, Ids, Restorable;
      ghost var st0, fleet0 := vmStates, FleetOf(vms);
      FleetKeys(vms);
      FleetAt(vms);
      running := true;
      Save();
      assert FleetOf(vms) == fleet0;
      ManageAll(controls);
      FleetKeys(vms);
      FleetAt(vms);
      Conclude(st0, fleet0);
      FleetAt(vms);
    }

    /** The end of a run that began with these stacks and shares. */
    method Conclude(ghost st0: Stacks, ghost fleet0: Fleet)
      requires Valid() && running && fleet0.Keys == FleetOf(vms).Keys
      requires vmStates == if restoreState then Pushed(st0, fleet0) else st0
      modifies this`running, this`vmStates, vms
      ensures !running
      ensures if restoreState then FleetOf(vms) == fleet0 && SameStacks(vmStates, st0)
              else FleetOf(vms) == old(FleetOf(vms)) && vmStates == st0
    {
      hide Pushed, Popped, Tops, SameStacks, FleetOf, Restorable;
      RestoreUndoesSave(st0, fleet0, FleetOf(vms));
      Restore();
      running := false;
    }
  }

  // ---------------------------------------------------------------- the threads

  /** Where the main thread stands in `run`; it launches its two threads one after the other. */
  datatype Main = Entered | Looping | Launching | Interrupting | Joined | Finished

  datatype Thread = NotStarted | Idle | Critical | Dead

  /** What the three threads share: the machines, the saved stacks, and who holds the mutex. */
  datatype World = World(main: Main, sampler: Thread, controller: Thread, interrupted: bool,
                         fleet: Fleet, stacks: Stacks)

  predicate Init(w: World) {
    w.main == Entered && w.sampler == NotStarted && w.controller == NotStarted && !w.interrupted
  }

  /** The mutex is free. */
  predicate Free(w: World) {
    w.sampler != Critical && w.controller != Critical
  }

  /** The main thread, with state restoring on or off. */
  ghost predicate MainStep(restore: bool, w: World, w': World) {
    match w.main
    case Entered =>
      w' == w.(main := Looping, stacks := if restore then Pushed(w.stacks, w.fleet) else w.stacks)
    case Looping =>
      || (w.sampler == NotStarted && w' == w.(main := Launching, sampler := Idle))
      || w' == w.(main := Interrupting, interrupted := true)
    case Launching => w' == w.(main := Looping, controller := Idle)
    case Interrupting =>
      w.sampler in {NotStarted, Dead} && w.controller in {NotStarted, Dead} && w' == w.(main := Joined)
    case Joined =>
      if restore then
        Restorable(w.stacks, w.fleet.Keys)
        && w' == w.(main := Finished, fleet := Tops(w.stacks, w.fleet), stacks := Popped(w.stacks, w.fleet.Keys))
      else w' == w.(main := Finished)
    case Finished => false
  }

  /** A sampler observes under the mutex; it is interrupted only while it sleeps outside. */
  predicate SamplerStep(w: World, w': World) {
    || (w.sampler == Idle && Free(w) && w' == w.(sampler := Critical))
    || (w.sampler == Critical && w' == w.(sampler := Idle))
    || (w.sampler == Idle && w.interrupted && w' == w.(sampler := Dead))
  }

  /** A controller may set any shares under the mutex. */
  predicate ControllerStep(w: World, w': World) {
    || (w.controller == Idle && Free(w) && w' == w.(controller := Critical))
    || (w.controller == Critical && w' == w.(fleet := w'.fleet) && w'.fleet.Keys == w.fleet.Keys)
    || (w.controller == Critical && w' == w.(controller := Idle))
    || (w.controller == Idle && w.interrupted && w' == w.(controller := Dead))
  }

  ghost predicate ThreadStep(restore: bool, w: World, w': World) {
    MainStep(restore, w, w') || SamplerStep(w, w') || ControllerStep(w, w')
  }

  ghost predicate Execution(restore: bool, run: seq<World>) {
    && |run| > 0 && Init(run[0])
    && forall i :: 0 <= i < |run| - 1 ==> ThreadStep(restore, run[i], run[i + 1])
  }

  /** Never two in the critical section; no manager thread survives the join; what was saved stays saved. */
  ghost predicate Inv(restore: bool, w0: World, w: World) {
    && w.fleet.Keys == w0.fleet.Keys
    && !(w.sampler == Critical && w.controller == Critical)
    && (if w.main == Launching then w.sampler != NotStarted && w.controller == NotStarted
        else (w.sampler == NotStarted <==> w.controller == NotStarted))
    && (w.main == Entered ==> w.fleet == w0.fleet && w.sampler == NotStarted)
    && (w.main in {Entered, Looping, Launching} ==> !w.interrupted && w.sampler != Dead && w.controller != Dead)
    && (w.main in {Joined, Finished} ==> w.sampler in {NotStarted, Dead} && w.controller in {NotStarted, Dead})
    && (if w.main == Entered || !restore then w.stacks == w0.stacks
        else if w.main == Finished then w.fleet == w0.fleet && SameStacks(w.stacks, w0.stacks)
        else w.stacks == Pushed(w0.stacks, w0.fleet))
  }

  lemma MainKeepsInv(restore: bool, w0: World, w: World, w': World)
    requires Inv(restore, w0, w) && MainStep(restore, w, w')
    ensures Inv(restore, w0, w')
  {
    hide Pushed, Popped, Tops, Restorable, SameStacks;
    if w.main == Joined && restore {
      RestoreUndoesSave(w0.stacks, w0.fleet, w.fleet);
    }
  }

  lemma SamplerKeepsInv(restore: bool, w0: World, w: World, w': World)
    requires Inv(restore, w0, w) && SamplerStep(w, w')
    ensures Inv(restore, w0, w')
  {
    hide Pushed, SameStacks;
  }

  lemma ControllerKeepsInv(restore: bool, w0: World, w: World, w': World)
    requires Inv(restore, w0, w) && ControllerStep(w, w')
    ensures Inv(restore, w0, w')
  {
    hide Pushed, SameStacks;
  }

  lemma StepKeepsInv(restore: bool, w0: World, w: World, w': World)
    requires Inv(restore, w0, w) && ThreadStep(restore, w, w')
    ensures Inv(restore, w0, w')
  {
    hide Inv, MainStep, SamplerStep, ControllerStep;
    if MainStep(restore, w, w') {
      MainKeepsInv(restore, w0, w, w');
    } else if SamplerStep(w, w') {
      SamplerKeepsInv(restore, w0, w, w');
    } else {
      ControllerKeepsInv(restore, w0, w, w');
    }
  }

  lemma {:induction false} ExecutionKeepsInv(restore: bool, run: seq<World>, i: nat)
    requires Execution(restore, run) && i < |run|
    ensures Inv(restore, run[0], run[i])
  {
    if i > 0 {
      ExecutionKeepsInv(restore, run, i - 1);
      assert run[i - 1 + 1] == run[i];
      StepKeepsInv(restore, run[0], run[i - 1], run[i]);
    }
  }

  /**
   * In every interleaving with state restoring on, a finished run leaves every share and every stack
   * as at entry, and no thread that could change them afterwards.
   */
  lemma FinishedIsRestored(run: seq<World>, i: nat)
    requires Execution(true, run) && i < |run| && run[i].main == Finished
    ensures run[i].fleet == run[0].fleet && SameStacks(run[i].stacks, run[0].stacks)
    ensures forall w :: !ThreadStep(true, run[i], w)
  {
    hide Pushed, SameStacks;
    ExecutionKeepsInv(true, run, i);
  }

  /** With it off, the stacks are untouched. */
  lemma WithoutRestoring(run: seq<World>, i: nat)
    requires Execution(false, run) && i < |run|
    ensures run[i].stacks == run[0].stacks
  {
    ExecutionKeepsInv(false, run, i);
  }

  /** Restoring is always possible when its turn comes: the saved pair is still on every stack. */
  lemma RestoreNeverBlocks(run: seq<World>, i: nat)
    requires Execution(true, run) && i < |run| && run[i].main == Joined
    ensures Restorable(run[i].stacks, run[i].fleet.Keys)
  {
    ExecutionKeepsInv(true, run, i);
    RestoreUndoesSave(run[0].stacks, run[0].fleet, run[i].fleet);
  }
}
