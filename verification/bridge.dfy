/**
 One scale set's bridge: scaling up, finishing jobs, adopting and purging VMs.
 Models bridge/bridge.go.  Answers from Orchard and GitHub are parameters: the
 view Get returned, the outcome of each create call, whether a delete worked.
 */
module Bridges {
  import opened Seqs
  import opened Orchard
  import opened VmName
  import opened Workers
  import opened AutoSize
  import opened Fairness
  import opened Placement
  import opened CapacityModel
  import opened Snapshots

  /** What the bridge has to scale from: no StateView at all, a Get without a snapshot, or a snapshot. */
  datatype View = NoStateView | NoSnapshot | Have(snap: Snapshot)

  /** One create: the JIT config and the CreateVM call both worked, or one of them did not. */
  datatype Outcome = Created(short: Suffix) | CreateFailed

  datatype Settings = Settings(
    scaleSet: string,
    labels: Labels,
    autoSize: bool,
    reserves: Reserves,
    cpu: uint64,
    memory: uint64)

  function EffectiveOf(cfg: Settings): Reserves {
    EffectiveReserves(cfg.reserves.cpu, cfg.reserves.memory)
  }

  /** The answer to the `i`-th create; past the end of the given answers Orchard is taken to be down. */
  function OutcomeAt(outcomes: seq<Outcome>, i: nat): Outcome {
    if i < |outcomes| then outcomes[i] else CreateFailed
  }

  /** How many creates in a row succeed, from the `i`-th on, out of `n`. */
  function Leading(outcomes: seq<Outcome>, i: nat, n: nat): (k: nat)
    requires i <= n
    ensures i <= k <= n
    ensures forall j :: i <= j < k ==> OutcomeAt(outcomes, j).Created?
    ensures k < n ==> OutcomeAt(outcomes, k).CreateFailed?
    decreases n - i
  {
    if i < n && OutcomeAt(outcomes, i).Created? then Leading(outcomes, i + 1, n) else i
  }

  function Names(scaleSet: string, outcomes: seq<Outcome>, k: nat): seq<string>
    requires forall i :: 0 <= i < k ==> OutcomeAt(outcomes, i).Created?
  {
    seq(k, i requires 0 <= i < k => NameFor(scaleSet, OutcomeAt(outcomes, i).short))
  }

  /** activeVMs once each of these names has been entered under itself, in order. */
  function Tracked(active: map<string, string>, names: seq<string>): map<string, string> {
    if |names| == 0 then active
    else
      var last := names[|names| - 1];
      Tracked(active, names[..|names| - 1])[last := last]
  }

  function FreeIn(cfg: Settings, snap: Snapshot): seq<Worker> {
    FreeWorkers(snap.workers, snap.vms, cfg.labels, EffectiveOf(cfg))
  }

  /** How many VMs the snapshot leaves room for. */
  function Room(cfg: Settings, view: View, needed: nat): nat {
    if cfg.autoSize then if view.Have? then |FreeIn(cfg, view.snap)| else 0
    else match view
      case NoStateView => needed
      case NoSnapshot => 0
      case Have(snap) =>
        var free := CapacityFor(snap.workers, cfg.labels) - PoolLoad(snap, cfg.labels);
        if free < 0 then 0 else free
  }

  function Min(a: nat, b: nat): nat {
    if a < b then a else b
  }

  /** The slots a scale-up acquires: bounded by the demand, by the room in the view, and by the semaphore. */
  function Acquired(cfg: Settings, view: View, count: int, active: nat, current: int, max: int): nat {
    if count <= active then 0
    else
      var needed: nat := count - active;
      GrantedBounds(current, max, Min(needed, Room(cfg, view, needed)));
      Granted(current, max, Min(needed, Room(cfg, view, needed)))
  }

  function FixedVMs(cfg: Settings, names: seq<string>): seq<VM> {
    seq(|names|, i requires 0 <= i < |names| => VM(names[i], Creating, "", cfg.labels, cfg.cpu, cfg.memory, None))
  }

  /** The VMs a scale-up that creates these names puts into Orchard. */
  function NewVMs(cfg: Settings, view: View, cursor: nat, names: seq<string>): seq<VM> {
    if names == [] then []
    else if !cfg.autoSize then FixedVMs(cfg, names)
    else if view.Have? && FreeIn(cfg, view.snap) != [] then
      Batch(FreeIn(cfg, view.snap), cursor, names, cfg.labels, EffectiveOf(cfg))
    else []
  }

  function Without(vms: seq<VM>, name: string): seq<VM> {
    Filter((vm: VM) => vm.name != name, vms)
  }

  function NamesIn(vms: seq<VM>): seq<string> {
    seq(|vms|, i requires 0 <= i < |vms| => vms[i].name)
  }

  lemma TrackOneMore(active: map<string, string>, names: seq<string>, name: string)
    ensures Tracked(active, names + [name]) == Tracked(active, names)[name := name]
  {
    assert (names + [name])[..|names|] == names;
  }

  lemma NamesOneMore(scaleSet: string, outcomes: seq<Outcome>, k: nat)
    requires forall i :: 0 <= i <= k ==> OutcomeAt(outcomes, i).Created?
    ensures Names(scaleSet, outcomes, k + 1)
         == Names(scaleSet, outcomes, k) + [NameFor(scaleSet, OutcomeAt(outcomes, k).short)]
  {
  }

  lemma FixedOneMore(cfg: Settings, names: seq<string>, name: string)
    ensures FixedVMs(cfg, names + [name])
         == FixedVMs(cfg, names) + [VM(name, Creating, "", cfg.labels, cfg.cpu, cfg.memory, None)]
  {
  }

  lemma BatchOneMore(free: seq<Worker>, start: nat, names: seq<string>, name: string, labels: Labels,
                     reserves: Reserves)
    requires free != []
    ensures Batch(free, start, names + [name], labels, reserves)
         == Batch(free, start, names, labels, reserves)
            + [BuildVM(name, free[Slot(start + |names|, |free|)], labels, reserves)]
  {
  }

  /** Orchard, as far as this bridge changes it. */
  class Controller {
    var vms: seq<VM>

    constructor (vms: seq<VM>)
      ensures this.vms == vms
    {
      this.vms := vms;
    }

    method CreateVM(vm: VM)
      modifies this
      ensures vms == old(vms) + [vm]
    {
      vms := vms + [vm];
    }

    /** Deleting a VM that is already gone is a success. */
    method DeleteVM(name: string)
      modifies this
      ensures vms == Without(old(vms), name)
    {
      ghost var was := vms;
      ghost var keep := (vm: VM) => vm.name != name;
      var kept := [];
      for i := 0 to |vms|
        invariant vms == was && kept == Filter(keep, vms[..i])
      {
        FilterStep(keep, vms, i);
        if vms[i].name != name {
          kept := kept + [vms[i]];
        }
      }
      assert vms[..|vms|] == vms;
      vms := kept;
    }
  }

  class Bridge {
    const cfg: Settings
    const capacity: Capacity
    const orchard: Controller
    var cursor: nat
    var activeVMs: map<string, string>

    constructor (cfg: Settings, capacity: Capacity, orchard: Controller)
      ensures this.cfg == cfg && this.capacity == capacity && this.orchard == orchard
      ensures activeVMs == map[] && cursor == 0
    {
      this.cfg, this.capacity, this.orchard := cfg, capacity, orchard;
      activeVMs, cursor := map[], 0;
    }

    method CreateOneVM(outcome: Outcome, cpu: uint64, memory: uint64, labels: Labels) returns (ok: bool)
      modifies this`activeVMs, orchard
      ensures ok == outcome.Created?
      ensures ok ==>
        var name := NameFor(cfg.scaleSet, outcome.short);
        && activeVMs == old(activeVMs)[name := name]
        && orchard.vms == old(orchard.vms) + [VM(name, Creating, "", labels, cpu, memory, None)]
      ensures !ok ==> activeVMs == old(activeVMs) && orchard.vms == old(orchard.vms)
    {
      if outcome.CreateFailed? {
        return false;
      }
      var name := NameFor(cfg.scaleSet, outcome.short);
      orchard.CreateVM(VM(name, Creating, "", labels, cpu, memory, None));
      activeVMs := activeVMs[name := name];
      return true;
    }

    /** The fixed-size create loop: it stops at the first failure. */
    method CreateFixed(acquired: nat, outcomes: seq<Outcome>) returns (created: nat)
      modifies this`activeVMs, orchard
      ensures created == Leading(outcomes, 0, acquired)
      ensures activeVMs == Tracked(old(activeVMs), Names(cfg.scaleSet, outcomes, created))
      ensures orchard.vms == old(orchard.vms) + FixedVMs(cfg, Names(cfg.scaleSet, outcomes, created))
    {
      created := 0;
      while created < acquired
        invariant created <= acquired
        invariant Leading(outcomes, created, acquired) == Leading(outcomes, 0, acquired)
        invariant activeVMs == Tracked(old(activeVMs), Names(cfg.scaleSet, outcomes, created))
        invariant orchard.vms == old(orchard.vms) + FixedVMs(cfg, Names(cfg.scaleSet, outcomes, created))
      {
        ghost var names := Names(cfg.scaleSet, outcomes, created);
        var ok := CreateOneVM(OutcomeAt(outcomes, created), cfg.cpu, cfg.memory, cfg.labels);
        if !ok {
          return;
        }
        ghost var name := NameFor(cfg.scaleSet, OutcomeAt(outcomes, created).short);
        NamesOneMore(cfg.scaleSet, outcomes, created);
        TrackOneMore(old(activeVMs), names, name);
        FixedOneMore(cfg, names, name);
        created := created + 1;
      }
    }

    /** One pinned VM, sized to fill its worker. */
    method PlaceOn(w: Worker, outcome: Outcome) returns (ok: bool)
      requires AutoSizedVM(w, EffectiveOf(cfg)).Sized?
      modifies this`activeVMs, orchard
      ensures ok == outcome.Created?
      ensures ok ==>
        var name := NameFor(cfg.scaleSet, outcome.short);
        && activeVMs == old(activeVMs)[name := name]
        && orchard.vms == old(orchard.vms) + [BuildVM(name, w, cfg.labels, EffectiveOf(cfg))]
      ensures !ok ==> activeVMs == old(activeVMs) && orchard.vms == old(orchard.vms)
    {
      var sized := AutoSizedVM(w, EffectiveOf(cfg));
      if sized.Unsizable? {
        // The skip branch, which gives one slot back: no candidate is ever too small.
        assert false;
      }
      ok := CreateOneVM(outcome, sized.size.cpu, sized.size.memory, MergePin(cfg.labels, PinIdentity(w)));
    }

    /** The AutoSize create loop, from cursor position `start` round the candidates. */
    method CreatePinned(candidates: seq<Worker>, start: nat, acquired: nat, outcomes: seq<Outcome>)
      returns (created: nat)
      requires candidates != []
      requires AllSized(cfg, candidates)
      modifies this`activeVMs, orchard
      ensures created == Leading(outcomes, 0, acquired)
      ensures activeVMs == Tracked(old(activeVMs), Names(cfg.scaleSet, outcomes, created))
      ensures orchard.vms == old(orchard.vms)
                + Batch(candidates, start, Names(cfg.scaleSet, outcomes, created), cfg.labels, EffectiveOf(cfg))
    {
      created := 0;
      ghost var names: seq<string> := Names(cfg.scaleSet, outcomes, 0);
      ghost var batch: seq<VM> := Batch(candidates, start, names, cfg.labels, EffectiveOf(cfg));
      while created < acquired
        invariant created <= acquired
        invariant Leading(outcomes, created, acquired) == Leading(outcomes, 0, acquired)
        invariant |names| == created && names == Names(cfg.scaleSet, outcomes, created)
        invariant batch == Batch(candidates, start, names, cfg.labels, EffectiveOf(cfg))
        invariant activeVMs == Tracked(old(activeVMs), names)
        invariant orchard.vms == old(orchard.vms) + batch
      {
        var w := candidates[Slot(start + created, |candidates|)];
        var ok := PlaceOn(w, OutcomeAt(outcomes, created));
        if !ok {
          return;
        }
        ghost var name := NameFor(cfg.scaleSet, OutcomeAt(outcomes, created).short);
        NamesOneMore(cfg.scaleSet, outcomes, created);
        TrackOneMore(old(activeVMs), names, name);
        BatchOneMore(candidates, start, names, name, cfg.labels, EffectiveOf(cfg));
        batch := batch + [BuildVM(name, w, cfg.labels, EffectiveOf(cfg))];
        names := names + [name];
        created := created + 1;
      }
    }

    /**
     GitHub's desired runner count.  On every exit path, the failing ones
     included, the count reported back is the previous one plus what was
     created, and the semaphore moves by exactly what was created.
     */
    method HandleDesiredRunnerCount(count: int, view: View, outcomes: seq<Outcome>)
      returns (reported: int, failed: bool, invalidated: bool)
      requires capacity.current >= 0
      modifies this, capacity`current, orchard
      ensures var acquired := Acquired(cfg, view, count, |old(activeVMs)|, old(capacity.current), capacity.max);
        var created := Leading(outcomes, 0, acquired);
        var names := Names(cfg.scaleSet, outcomes, created);
        && reported == |old(activeVMs)| + created
        && failed == (created < acquired)
        && invalidated == (created == acquired > 0 && !view.NoStateView?)
        && capacity.current == old(capacity.current) + created
        && activeVMs == Tracked(old(activeVMs), names)
        && orchard.vms == old(orchard.vms) + NewVMs(cfg, view, old(cursor), names)
        && cursor == old(cursor) + if cfg.autoSize then acquired else 0
    {
      var currentActive := |activeVMs|;
      var needed := count - currentActive;
      if needed <= 0 {
        assert Leading(outcomes, 0, 0) == 0 && Names(cfg.scaleSet, outcomes, 0) == [];
        return currentActive, false, false;
      }
      assert currentActive + needed == count;
      if cfg.autoSize {
        reported, failed, invalidated := HandleAutoSizeScaleUp(needed, currentActive, view, outcomes);
        return;
      }
      reported, failed, invalidated := HandleFixedScaleUp(needed, currentActive, view, outcomes);
    }

    /** The fixed-size branch of HandleDesiredRunnerCount. */
    method HandleFixedScaleUp(wanted: nat, currentActive: nat, view: View, outcomes: seq<Outcome>)
      returns (reported: int, failed: bool, invalidated: bool)
      requires !cfg.autoSize && wanted > 0 && capacity.current >= 0
      modifies this`activeVMs, capacity`current, orchard
      ensures var acquired :=
          Acquired(cfg, view, currentActive + wanted, currentActive, old(capacity.current), capacity.max);
        var created := Leading(outcomes, 0, acquired);
        var names := Names(cfg.scaleSet, outcomes, created);
        && reported == currentActive + created
        && failed == (created < acquired)
        && invalidated == (created == acquired > 0 && !view.NoStateView?)
        && capacity.current == old(capacity.current) + created
        && activeVMs == Tracked(old(activeVMs), names)
        && orchard.vms == old(orchard.vms) + FixedVMs(cfg, names)
    {
      ghost var granted :=
        Acquired(cfg, view, currentActive + wanted, currentActive, capacity.current, capacity.max);
      var needed := wanted;
      if view.NoSnapshot? {
        return currentActive, false, false;
      }
      if view.Have? {
        var workerCap := CapacityForLabels(view.snap.workers, cfg.labels);
        var matching := ManagedVMsMatchingLabels(view.snap, cfg.labels);
        var managedMatching := CountActiveVMs(matching);
        var free := workerCap - managedMatching;
        if free <= 0 {
          return currentActive, false, false;
        }
        if needed > free {
          needed := free;
        }
      }
      var acquired := capacity.TryAcquire(needed);
      assert acquired == granted;
      if acquired == 0 {
        return currentActive, false, false;
      }
      var created := CreateFixed(acquired, outcomes);
      if created < acquired {
        capacity.Release(acquired - created);
        return currentActive + created, true, false;
      }
      return currentActive + created, false, !view.NoStateView?;
    }

    method HandleAutoSizeScaleUp(wanted: nat, currentActive: nat, view: View, outcomes: seq<Outcome>)
      returns (reported: int, failed: bool, invalidated: bool)
      requires cfg.autoSize && wanted > 0 && capacity.current >= 0
      modifies this, capacity`current, orchard
      ensures var acquired :=
          Acquired(cfg, view, currentActive + wanted, currentActive, old(capacity.current), capacity.max);
        var created := Leading(outcomes, 0, acquired);
        var names := Names(cfg.scaleSet, outcomes, created);
        && reported == currentActive + created
        && failed == (created < acquired)
        && invalidated == (created == acquired > 0)
        && capacity.current == old(capacity.current) + created
        && activeVMs == Tracked(old(activeVMs), names)
        && orchard.vms == old(orchard.vms) + NewVMs(cfg, view, old(cursor), names)
        && cursor == old(cursor) + acquired
    {
      ghost var granted :=
        Acquired(cfg, view, currentActive + wanted, currentActive, capacity.current, capacity.max);
      if !view.Have? {
        return currentActive, false, false;
      }
      var needed := wanted;
      var candidates := FreeAutoSizeWorkers(view.snap.workers, view.snap.vms, cfg.labels, EffectiveOf(cfg));
      if |candidates| == 0 {
        return currentActive, false, false;
      }
      if needed > |candidates| {
        needed := |candidates|;
      }
      var acquired := capacity.TryAcquire(needed);
      assert acquired == granted;
      if acquired == 0 {
        return currentActive, false, false;
      }
      var start := cursor;
      cursor := cursor + acquired;
      FreeAreSized(cfg, view.snap);
      var created := CreatePinned(candidates, start, acquired, outcomes);
      if created < acquired {
        capacity.Release(acquired - created);
        return currentActive + created, true, false;
      }
      return currentActive + created, false, true;
    }

    /** A finished job: forget the VM, then delete it, or hand it to cleanup when the delete fails. */
    method HandleJobCompleted(runner: string, deleteOk: bool) returns (queued: Option<string>, invalidated: bool)
      modifies this`activeVMs, capacity`current, orchard
      ensures activeVMs == old(activeVMs) - {runner}
      ensures invalidated == (runner in old(activeVMs) && deleteOk)
      ensures runner in old(activeVMs) && deleteOk ==>
        && capacity.current == Released(old(capacity.current), 1)
        && orchard.vms == Without(old(orchard.vms), old(activeVMs)[runner])
        && queued.None?
      ensures !(runner in old(activeVMs) && deleteOk) ==>
        && capacity.current == old(capacity.current) && orchard.vms == old(orchard.vms)
        && queued == if runner in old(activeVMs) then Some(old(activeVMs)[runner]) else None
    {
      if runner !in activeVMs {
        return None, false;
      }
      var vmName := activeVMs[runner];
      activeVMs := activeVMs - {runner};
      if !deleteOk {
        return Some(vmName), false;
      }
      orchard.DeleteVM(vmName);
      capacity.Release(1);
      return None, true;
    }

    method PurgeActiveVM(vmName: string)
      modifies this`activeVMs
      ensures activeVMs == old(activeVMs) - {vmName}
    {
      activeVMs := activeVMs - {vmName};
    }

    /** Adopts this scale set's unfinished VMs and says how many slots they take. */
    method HydrateFromOrchard(view: View) returns (adopted: nat)
      modifies this`activeVMs
      ensures var mine := if view.Have? then Adoptable(view.snap, cfg.scaleSet) else [];
        adopted == |mine| && activeVMs == Tracked(old(activeVMs), NamesIn(mine))
    {
      adopted := 0;
      if !view.Have? {
        return;
      }
      var vms := ManagedVMsForScaleSet(view.snap, cfg.scaleSet);
      ghost var active := (vm: VM) => !Terminal(vm);
      for i := 0 to |vms|
        invariant adopted == |Filter(active, vms[..i])|
        invariant activeVMs == Tracked(old(activeVMs), NamesIn(Filter(active, vms[..i])))
      {
        FilterStep(active, vms, i);
        ghost var seen := Filter(active, vms[..i]);
        TrackOneMore(old(activeVMs), NamesIn(seen), vms[i].name);
        assert NamesIn(seen + [vms[i]]) == NamesIn(seen) + [vms[i].name];
        assert seen + [] == seen;
        if vms[i].status == Stopped || vms[i].status == Failed {
          continue;
        }
        activeVMs := activeVMs[vms[i].name := vms[i].name];
        adopted := adopted + 1;
      }
      assert vms[..|vms|] == vms;
    }
  }

  function Adoptable(snap: Snapshot, scaleSet: string): seq<VM> {
    Filter((vm: VM) => !Terminal(vm), ForScaleSet(snap.vms, scaleSet))
  }

  ghost predicate AllSized(cfg: Settings, ws: seq<Worker>) {
    forall i :: 0 <= i < |ws| ==> AutoSizedVM(ws[i], EffectiveOf(cfg)).Sized?
  }

  lemma FreeAreSized(cfg: Settings, snap: Snapshot)
    ensures AllSized(cfg, FreeIn(cfg, snap))
  {
    var free := FreeIn(cfg, snap);
    forall i | 0 <= i < |free|
      ensures AutoSizedVM(free[i], EffectiveOf(cfg)).Sized?
    {
      FreeMember(snap.workers, snap.vms, cfg.labels, EffectiveOf(cfg), free[i]);
      CandidateIsTheOnlyTarget(snap.workers, cfg.labels, EffectiveOf(cfg), free[i]);
    }
  }

  // ---- What a scale-up amounts to ---------------------------------------------

  /** As many slots as demand, the view's room and the semaphore all allow, and no more. */
  lemma AcquiredIsLargest(cfg: Settings, view: View, count: int, active: nat, current: int, max: int)
    ensures var k := Acquired(cfg, view, count, active, current, max);
      var needed: nat := if count <= active then 0 else count - active;
      var room, free := Room(cfg, view, needed), if max <= current then 0 else max - current;
      k <= needed && k <= room && k <= free && (k == needed || k == room || k == free)
  {
  }

  lemma NamesAreManaged(scaleSet: string, outcomes: seq<Outcome>, k: nat)
    requires forall i :: 0 <= i < k ==> OutcomeAt(outcomes, i).Created?
    ensures forall n :: n in Names(scaleSet, outcomes, k) ==> IsManaged(n)
  {
    forall i | 0 <= i < k
      ensures IsManaged(NameFor(scaleSet, OutcomeAt(outcomes, i).short))
    {
      GeneratedNameShape(scaleSet, OutcomeAt(outcomes, i).short);
    }
  }

  /** From a fresh snapshot, what the AutoSize scale-up does to Orchard is one step of the placement machine. */
  lemma AutoSizeScaleUpIsPlacementStep(cfg: Settings, s: State, at: int, staleAfter: int, cursor: nat,
                                       count: int, active: nat, current: int, max: int, outcomes: seq<Outcome>)
    requires cfg.autoSize
    ensures var view := Have(NewSnapshot(s.vms, s.workers, at, staleAfter));
      var names := Names(cfg.scaleSet, outcomes,
                         Leading(outcomes, 0, Acquired(cfg, view, count, active, current, max)));
      var step := ScaleUp(staleAfter, at, cfg.labels, EffectiveOf(cfg), cursor, names);
      names != [] ==>
        Enabled(s, step) && Placement.Apply(s, step) == s.(vms := s.vms + NewVMs(cfg, view, cursor, names))
  {
    var view := Have(NewSnapshot(s.vms, s.workers, at, staleAfter));
    var acquired := Acquired(cfg, view, count, active, current, max);
    var created := Leading(outcomes, 0, acquired);
    AcquiredIsLargest(cfg, view, count, active, current, max);
    NamesAreManaged(cfg.scaleSet, outcomes, created);
  }

  /**
   From a fresh snapshot, the fixed-size scale-up raises the pool's load by
   exactly what it created, and never past the pool's slots.
   */
  lemma FixedScaleUpAdmission(cfg: Settings, snap: Snapshot, count: int, active: nat,
                              current: int, max: int, outcomes: seq<Outcome>, cursor: nat)
    requires !cfg.autoSize
    ensures var view := Have(snap);
      var created := Leading(outcomes, 0, Acquired(cfg, view, count, active, current, max));
      var batch := NewVMs(cfg, view, cursor, Names(cfg.scaleSet, outcomes, created));
      var before, after := PoolLoad(snap, cfg.labels), PoolLoad(snap.(vms := snap.vms + batch), cfg.labels);
      && after == before + created
      && (after <= before || after <= CapacityFor(snap.workers, cfg.labels))
  {
    var view := Have(snap);
    var created := Leading(outcomes, 0, Acquired(cfg, view, count, active, current, max));
    var names := Names(cfg.scaleSet, outcomes, created);
    var batch := NewVMs(cfg, view, cursor, names);
    AcquiredIsLargest(cfg, view, count, active, current, max);
    NamesAreManaged(cfg.scaleSet, outcomes, created);
    assert |batch| == created && forall i :: 0 <= i < |batch| ==> batch[i].name == names[i] && names[i] in names;
    assert forall vm :: vm in batch ==> FreshInPool(vm, cfg.labels);
    NewVMsAreCounted(snap, cfg.labels, batch);
  }

  /** With names never used before, what is reported to GitHub is the new size of activeVMs. */
  lemma {:induction false} TrackedGrows(active: map<string, string>, names: seq<string>)
    requires forall i, j :: 0 <= i < j < |names| ==> names[i] != names[j]
    requires forall n :: n in names ==> n !in active
    ensures |Tracked(active, names)| == |active| + |names|
  {
    if |names| > 0 {
      var k := |names| - 1;
      TrackedGrows(active, names[..k]);
      TrackedHolds(active, names[..k], names[k]);
      GrowsByOne(Tracked(active, names[..k]), names[k]);
    }
  }

  lemma {:induction false} TrackedHolds(active: map<string, string>, names: seq<string>, name: string)
    ensures name in Tracked(active, names) <==> name in active || name in names
    ensures name in names ==> Tracked(active, names)[name] == name
    ensures name in active && name !in names ==> Tracked(active, names)[name] == active[name]
  {
    if |names| > 0 {
      var k := |names| - 1;
      TrackedHolds(active, names[..k], name);
      assert names == names[..k] + [names[k]];
    }
  }

  lemma GrowsByOne(active: map<string, string>, name: string)
    requires name !in active
    ensures |active[name := name]| == |active| + 1
  {
    assert active[name := name].Keys == active.Keys + {name};
  }

  // ---- Over the records alone ---------------------------------------------------------

  function Least(a: int, b: int): int {
    if a < b then a else b
  }

  /**
   The slots acquired are the least of the runners missing, what the view leaves
   and what the semaphore leaves, and none if any of these is negative: with
   AutoSize the view leaves the free workers, otherwise the pool's slots less its
   load; without a snapshot it leaves none, and without a StateView it leaves
   AutoSize none and bounds a fixed-size scale-up not at all.
   */
  lemma AcquiredExactly(cfg: Settings, view: View, count: int, active: nat, current: int, max: int)
    ensures var asked := Least(count - active, max - current);
      var k := Acquired(cfg, view, count, active, current, max);
      && (view.Have? && cfg.autoSize ==> k == AtLeastNone(Least(asked, |FreeIn(cfg, view.snap)|)))
      && (view.Have? && !cfg.autoSize ==>
            var left := CapacityFor(view.snap.workers, cfg.labels) - PoolLoad(view.snap, cfg.labels);
            k == AtLeastNone(Least(asked, left)))
      && (view.NoSnapshot? ==> k == 0)
      && (view.NoStateView? ==> k == if cfg.autoSize then 0 else AtLeastNone(asked))
  {
  }

  function AtLeastNone(n: int): nat {
    if n < 0 then 0 else n
  }

  /** Adopted are exactly the scale set's VMs that are neither stopped nor failed. */
  lemma AdoptableIff(snap: Snapshot, scaleSet: string, vm: VM)
    ensures vm in Adoptable(snap, scaleSet) <==>
      vm in snap.vms && AttributedTo(vm.name, scaleSet) && vm.status != Stopped && vm.status != Failed
  {
    FilterMember((v: VM) => AttributedTo(v.name, scaleSet), snap.vms, vm);
    FilterMember((v: VM) => !Terminal(v), ForScaleSet(snap.vms, scaleSet), vm);
  }

  /** After a hydrate each adopted VM is tracked under its own name, as a job's completion will ask for it. */
  lemma HydrateTracks(active: map<string, string>, snap: Snapshot, scaleSet: string, vm: VM)
    requires vm in Adoptable(snap, scaleSet)
    ensures var after := Tracked(active, NamesIn(Adoptable(snap, scaleSet)));
      vm.name in after && after[vm.name] == vm.name
  {
    var mine := Adoptable(snap, scaleSet);
    var i :| 0 <= i < |mine| && mine[i] == vm;
    assert NamesIn(mine)[i] == vm.name;
    TrackedHolds(active, NamesIn(mine), vm.name);
  }

  /** A fixed-size VM is what the configuration says, and on no worker yet. */
  lemma FixedVMsAsConfigured(cfg: Settings, view: View, cursor: nat, names: seq<string>)
    requires !cfg.autoSize
    ensures var vms := NewVMs(cfg, view, cursor, names);
      |vms| == |names| && forall i :: 0 <= i < |vms| ==>
        && vms[i].name == names[i] && vms[i].status == Creating && vms[i].worker == ""
        && vms[i].labels == cfg.labels && vms[i].cpu == cfg.cpu && vms[i].memory == cfg.memory
  {
  }
}
