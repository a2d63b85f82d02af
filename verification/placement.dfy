/**
 One full-size VM per machine, over whole runs.

 The state is what Orchard holds; the steps are atomic AutoSize scale-ups on a
 fresh snapshot, Orchard scheduling, VMs stopping and going away, foreign VMs
 appearing, and the worker fleet changing in any way (heartbeats, renames,
 stale records, pauses).  Models bridge/autosize.go:133-209 and
 bridge/bridge.go:209-276.
 */
module Placement {
  import opened Seqs
  import opened Orchard
  import opened VmName
  import opened Workers
  import opened AutoSize
  import opened Fairness

  // ---- What one scale-up creates ----------------------------------------------

  /** The VM built for worker `w`; Orchard fills in the creation time. */
  function BuildVM(name: string, w: Worker, labels: Labels, reserves: Reserves): VM {
    var sized := AutoSizedVM(w, reserves);
    var size := if sized.Sized? then sized.size else Size(0, 0);
    VM(name, Creating, "", MergePin(labels, PinIdentity(w)), size.cpu, size.memory, None)
  }

  /** The batch placed from cursor position `start`, one VM per given name. */
  function Batch(free: seq<Worker>, start: nat, names: seq<string>, labels: Labels, reserves: Reserves): seq<VM>
    requires free != []
  {
    seq(|names|, i requires 0 <= i < |names| => BuildVM(names[i], free[Slot(start + i, |free|)], labels, reserves))
  }

  // ---- The machine ------------------------------------------------------------

  /** `registered` is the pin each Orchard Name last registered with. */
  datatype State = State(workers: seq<Worker>, vms: seq<VM>, registered: map<string, string>)

  datatype Step =
    | ScaleUp(staleAfter: int, now: int, labels: Labels, reserves: Reserves, start: nat, names: seq<string>)
    | Schedule(vm: nat, worker: nat)
    | SetStatus(vm: nat, status: VMStatus)
    | Remove(vm: nat)
    | Appear(other: VM)
    | Fleet(workers': seq<Worker>)

  function PinOf(vm: VM): string {
    LabelOf(vm.labels, PIN_LABEL_KEY)
  }

  /** A managed VM that is not over and that a pin label ties to one machine. */
  predicate Pinned(vm: VM) {
    IsManaged(vm.name) && !Terminal(vm) && PinOf(vm) != ""
  }

  function Free(s: State, step: Step): seq<Worker>
    requires step.ScaleUp?
  {
    FreeWorkers(Live(s.workers, step.staleAfter, step.now), s.vms, step.labels, step.reserves)
  }

  ghost predicate Enabled(s: State, step: Step) {
    match step
    case ScaleUp(_, _, _, _, _, names) =>
      && 0 < |names| <= |Free(s, step)|
      && forall n :: n in names ==> IsManaged(n)
    case Schedule(i, j) =>
      && i < |s.vms| && j < |s.workers|
      && s.vms[i].worker == "" && s.workers[j].name != ""
      && MatchesLabels(s.workers[j].labels, s.vms[i].labels)
    case SetStatus(i, status) =>
      && i < |s.vms|
      && (Terminal(s.vms[i]) ==> status == Stopped || status == Failed)
    case Remove(i) => i < |s.vms|
    case Appear(vm) => !Pinned(vm)
    case Fleet(workers') =>
      && UniqueNames(workers')
      // A record's pin label is fixed while VMs are attributed to its Name.
      && forall w, vm :: w in workers' && vm in s.vms && Pinned(vm) && vm.worker == w.name && w.name in s.registered ==>
           PinIdentity(w) == s.registered[w.name]
  }

  function Apply(s: State, step: Step): State
    requires Enabled(s, step)
  {
    match step
    case ScaleUp(_, _, labels, reserves, start, names) =>
      s.(vms := s.vms + Batch(Free(s, step), start, names, labels, reserves))
    case Schedule(i, j) => s.(vms := s.vms[i := s.vms[i].(worker := s.workers[j].name)])
    case SetStatus(i, status) => s.(vms := s.vms[i := s.vms[i].(status := status)])
    case Remove(i) => s.(vms := s.vms[..i] + s.vms[i + 1..])
    case Appear(vm) => s.(vms := s.vms + [vm])
    case Fleet(workers') => State(workers', s.vms, s.registered + PinByName(workers'))
  }

  ghost predicate Init(s: State) {
    UniqueNames(s.workers) && s.registered == PinByName(s.workers) && forall vm :: vm in s.vms ==> !Pinned(vm)
  }

  // ---- The invariant ----------------------------------------------------------

  /** No two live pinned VMs carry the same pin. */
  ghost predicate Exclusive(vms: seq<VM>) {
    forall i, j :: 0 <= i < j < |vms| && Pinned(vms[i]) && Pinned(vms[j]) ==> PinOf(vms[i]) != PinOf(vms[j])
  }

  ghost predicate RecordsKnown(s: State) {
    && UniqueNames(s.workers)
    && forall w :: w in s.workers ==> w.name in s.registered && s.registered[w.name] == PinIdentity(w)
  }

  /** A scheduled pinned VM sits under a Name that registered with its pin. */
  ghost predicate WellPlaced(s: State) {
    forall vm :: vm in s.vms && Pinned(vm) && vm.worker != "" ==>
      vm.worker in s.registered && s.registered[vm.worker] == PinOf(vm)
  }

  ghost predicate Inv(s: State) {
    Exclusive(s.vms) && RecordsKnown(s) && WellPlaced(s)
  }

  /** Renamed, stale, scheduled or pending: a live pinned VM always holds exactly its own pin. */
  lemma PinnedHoldsItsPin(s: State, live: seq<Worker>, vm: VM)
    requires RecordsKnown(s) && WellPlaced(s) && vm in s.vms && Pinned(vm)
    requires forall w :: w in live ==> w in s.workers
    ensures PinOf(vm) in HeldPins(s.vms, live)
  {
    var byName := PinByName(live);
    if vm.worker != "" && vm.worker in byName {
      PinByNameKnown(live, vm.worker);
    }
    assert HeldPin(vm, byName) == PinOf(vm);
  }

  lemma BatchPins(free: seq<Worker>, start: nat, names: seq<string>, labels: Labels, reserves: Reserves, i: nat)
    requires free != [] && i < |names|
    requires PinIdentity(free[Slot(start + i, |free|)]) != "" && IsManaged(names[i])
    ensures var vm := Batch(free, start, names, labels, reserves)[i];
      Pinned(vm) && PinOf(vm) == PinIdentity(free[Slot(start + i, |free|)]) && vm.worker == ""
  {
  }

  lemma FreePinNonEmpty(workers: seq<Worker>, vms: seq<VM>, labels: Labels, reserves: Reserves, w: Worker)
    requires w in FreeWorkers(workers, vms, labels, reserves)
    ensures PinIdentity(w) != "" && PinIdentity(w) !in HeldPins(vms, workers) && w in workers
  {
    FreeMember(workers, vms, labels, reserves, w);
    CandidateMember(workers, labels, reserves, w);
  }

  ghost function PinsOf(vms: seq<VM>): set<string> {
    set vm | vm in vms && Pinned(vm) :: PinOf(vm)
  }

  /**
   Whatever snapshot the free list came from, the batch keeps one VM per pin
   exactly when none of the pins it hands out is held by a VM of now.
   */
  lemma BatchKeepsExclusiveIff(vms: seq<VM>, batch: seq<VM>)
    requires Exclusive(vms)
    requires forall i :: 0 <= i < |batch| ==> Pinned(batch[i])
    requires forall i, j :: 0 <= i < j < |batch| ==> PinOf(batch[i]) != PinOf(batch[j])
    ensures Exclusive(vms + batch) <==> forall vm :: vm in batch ==> PinOf(vm) !in PinsOf(vms)
  {
    var all := vms + batch;
    if Exclusive(all) {
      forall b | b in batch
        ensures PinOf(b) !in PinsOf(vms)
      {
        var j :| 0 <= j < |batch| && batch[j] == b;
        assert all[|vms| + j] == b;
        forall vm | vm in vms && Pinned(vm)
          ensures PinOf(vm) != PinOf(b)
        {
          var i :| 0 <= i < |vms| && vms[i] == vm;
          assert all[i] == vm;
        }
      }
    }
  }

  lemma FreshBatch(s: State, step: Step)
    requires Inv(s) && step.ScaleUp? && Enabled(s, step)
    ensures var batch := Batch(Free(s, step), step.start, step.names, step.labels, step.reserves);
      && (forall i :: 0 <= i < |batch| ==> Pinned(batch[i]) && batch[i].worker == "")
      && (forall i, j :: 0 <= i < j < |batch| ==> PinOf(batch[i]) != PinOf(batch[j]))
      && (forall vm :: vm in batch ==> PinOf(vm) !in PinsOf(s.vms))
  {
    var live := Live(s.workers, step.staleAfter, step.now);
    var free := Free(s, step);
    var batch := Batch(free, step.start, step.names, step.labels, step.reserves);
    FreePinsDistinct(live, s.vms, step.labels, step.reserves);
    forall i | 0 <= i < |batch|
      ensures Pinned(batch[i]) && batch[i].worker == "" && PinOf(batch[i]) !in PinsOf(s.vms)
      ensures PinOf(batch[i]) == PinIdentity(free[Slot(step.start + i, |free|)])
    {
      var w := free[Slot(step.start + i, |free|)];
      FreePinNonEmpty(live, s.vms, step.labels, step.reserves, w);
      BatchPins(free, step.start, step.names, step.labels, step.reserves, i);
      forall vm | vm in s.vms && Pinned(vm)
        ensures PinOf(vm) != PinIdentity(w)
      {
        LiveSubset(s.workers, step.staleAfter, step.now);
        PinnedHoldsItsPin(s, live, vm);
      }
    }
    forall i, j | 0 <= i < j < |batch|
      ensures PinOf(batch[i]) != PinOf(batch[j])
    {
      RotationDistinct(step.start + i, step.start + j, |free|);
      var a, b := Slot(step.start + i, |free|), Slot(step.start + j, |free|);
      assert PinIdentity(free[a]) != PinIdentity(free[b]);
    }
  }

  /** Each VM of a batch is the size of one live worker less the reserves, and can land on no other. */
  lemma BatchFillsWorkers(workers: seq<Worker>, vms: seq<VM>, labels: Labels, reserves: Reserves,
                          start: nat, names: seq<string>, i: nat)
    requires FreeWorkers(workers, vms, labels, reserves) != [] && i < |names|
    ensures var free := FreeWorkers(workers, vms, labels, reserves);
      var w := free[Slot(start + i, |free|)];
      var vm := Batch(free, start, names, labels, reserves)[i];
      && vm.name == names[i] && vm.status == Creating
      && Targets(workers, vm.labels) == [w]
      && vm.cpu >= 1 && vm.cpu + reserves.cpu == Resource(w, LOGICAL_CORES)
      && vm.memory >= 1 && vm.memory + reserves.memory == Resource(w, MEMORY_MIB)
  {
    var free := FreeWorkers(workers, vms, labels, reserves);
    var w := free[Slot(start + i, |free|)];
    FreeMember(workers, vms, labels, reserves, w);
    CandidateIsTheOnlyTarget(workers, labels, reserves, w);
  }

  lemma LiveSubset(workers: seq<Worker>, staleAfter: int, now: int)
    ensures forall w :: w in Live(workers, staleAfter, now) ==> w in workers
  {
    forall w | w in Live(workers, staleAfter, now)
      ensures w in workers
    {
      LiveMember(workers, staleAfter, now, w);
    }
  }

  // ---- Steps keep it ----------------------------------------------------------

  lemma ScaleUpKeeps(s: State, step: Step)
    requires Inv(s) && step.ScaleUp? && Enabled(s, step)
    ensures Inv(Apply(s, step))
  {
    FreshBatch(s, step);
    BatchKeepsExclusiveIff(s.vms, Batch(Free(s, step), step.start, step.names, step.labels, step.reserves));
  }

  lemma ScheduleKeeps(s: State, step: Step)
    requires Inv(s) && step.Schedule? && Enabled(s, step)
    ensures Inv(Apply(s, step))
  {
    var vm, w := s.vms[step.vm], s.workers[step.worker];
    var s' := Apply(s, step);
    assert w in s.workers;
    if Pinned(vm) {
      assert PIN_LABEL_KEY in vm.labels;
      assert PinIdentity(w) == PinOf(vm);
    }
    forall v | v in s'.vms && Pinned(v) && v.worker != ""
      ensures v.worker in s'.registered && s'.registered[v.worker] == PinOf(v)
    {
      assert v == vm.(worker := w.name) || v in s.vms;
    }
  }

  lemma SetStatusKeeps(s: State, step: Step)
    requires Inv(s) && step.SetStatus? && Enabled(s, step)
    ensures Inv(Apply(s, step))
  {
    var vm := s.vms[step.vm];
    var s' := Apply(s, step);
    forall v | v in s'.vms && Pinned(v) && v.worker != ""
      ensures v.worker in s'.registered && s'.registered[v.worker] == PinOf(v)
    {
      assert v == vm.(status := step.status) || v in s.vms;
      assert vm in s.vms;
    }
  }

  lemma RemoveKeeps(s: State, step: Step)
    requires Inv(s) && step.Remove? && Enabled(s, step)
    ensures Inv(Apply(s, step))
  {
    var s' := Apply(s, step);
    forall i, j | 0 <= i < j < |s'.vms| && Pinned(s'.vms[i]) && Pinned(s'.vms[j])
      ensures PinOf(s'.vms[i]) != PinOf(s'.vms[j])
    {
      var i' := if i < step.vm then i else i + 1;
      var j' := if j < step.vm then j else j + 1;
      assert s'.vms[i] == s.vms[i'] && s'.vms[j] == s.vms[j'];
    }
  }

  lemma FleetKeeps(s: State, step: Step)
    requires Inv(s) && step.Fleet? && Enabled(s, step)
    ensures Inv(Apply(s, step))
  {
    var s' := Apply(s, step);
    forall w | w in step.workers'
      ensures w.name in s'.registered && s'.registered[w.name] == PinIdentity(w)
    {
      PinByNameUnique(step.workers', w);
    }
    forall vm | vm in s.vms && Pinned(vm) && vm.worker != ""
      ensures vm.worker in s'.registered && s'.registered[vm.worker] == PinOf(vm)
    {
      if vm.worker in PinByName(step.workers') {
        PinByNameKnown(step.workers', vm.worker);
      }
    }
  }

  lemma StepKeeps(s: State, step: Step)
    requires Inv(s) && Enabled(s, step)
    ensures Inv(Apply(s, step))
  {
    match step
    case ScaleUp(_, _, _, _, _, _) => ScaleUpKeeps(s, step);
    case Schedule(_, _) => ScheduleKeeps(s, step);
    case SetStatus(_, _) => SetStatusKeeps(s, step);
    case Remove(_) => RemoveKeeps(s, step);
    case Appear(_) =>
    case Fleet(_) => FleetKeeps(s, step);
  }

  // ---- Runs -------------------------------------------------------------------

  ghost predicate Run(states: seq<State>, steps: seq<Step>) {
    && |states| == |steps| + 1
    && Init(states[0])
    && forall i :: 0 <= i < |steps| ==> Enabled(states[i], steps[i]) && states[i + 1] == Apply(states[i], steps[i])
  }

  lemma InitKeeps(s: State)
    requires Init(s)
    ensures Inv(s)
  {
    forall w | w in s.workers
      ensures w.name in s.registered && s.registered[w.name] == PinIdentity(w)
    {
      PinByNameUnique(s.workers, w);
    }
  }

  lemma {:induction false} RunKeeps(states: seq<State>, steps: seq<Step>, i: nat)
    requires Run(states, steps) && i < |states|
    ensures Inv(states[i])
  {
    if i == 0 {
      InitKeeps(states[0]);
    } else {
      RunKeeps(states, steps, i - 1);
      StepKeeps(states[i - 1], steps[i - 1]);
    }
  }

  /** In every state of every run, no two live pinned VMs carry the same pin label. */
  lemma OneVMPerPin(states: seq<State>, steps: seq<Step>, k: nat, i: nat, j: nat)
    requires Run(states, steps) && k < |states|
    requires i < j < |states[k].vms| && Pinned(states[k].vms[i]) && Pinned(states[k].vms[j])
    ensures PinOf(states[k].vms[i]) != PinOf(states[k].vms[j])
  {
    RunKeeps(states, steps, k);
  }

  /**
   No machine hosts two.  `hostOf` says which machine stands behind each Orchard
   Name and `plist` which pin label that machine's launchd plist carries, across
   any number of renames.
   */
  lemma OneVMPerMachine(states: seq<State>, steps: seq<Step>, k: nat, i: nat, j: nat,
                        hostOf: map<string, int>, plist: map<int, string>)
    requires Run(states, steps) && k < |states|
    requires forall n :: n in states[k].registered ==>
      n in hostOf && hostOf[n] in plist && plist[hostOf[n]] == states[k].registered[n]
    requires i < j < |states[k].vms| && Pinned(states[k].vms[i]) && Pinned(states[k].vms[j])
    requires states[k].vms[i].worker != "" && states[k].vms[j].worker != ""
    ensures states[k].vms[i].worker in hostOf && states[k].vms[j].worker in hostOf
    ensures hostOf[states[k].vms[i].worker] != hostOf[states[k].vms[j].worker]
  {
    RunKeeps(states, steps, k);
    assert states[k].vms[i] in states[k].vms && states[k].vms[j] in states[k].vms;
  }

  // ---- Two scale-ups from one snapshot --------------------------------------------

  function BatchOf(s: State, step: Step): seq<VM>
    requires step.ScaleUp? && Free(s, step) != []
  {
    Batch(Free(s, step), step.start, step.names, step.labels, step.reserves)
  }

  /** The worker of the `i`-th placement from cursor position `start`. */
  function At(free: seq<Worker>, start: nat, i: nat): Worker
    requires free != []
  {
    free[Slot(start + i, |free|)]
  }

  /**
   A batch picked in one state and created in another, whatever happened in
   between: it keeps one VM per pin exactly when none of the workers it picked
   has its pin on an unfinished VM by then.
   */
  lemma LaterBatchIff(s: State, step: Step, vms: seq<VM>)
    requires Inv(s) && step.ScaleUp? && Enabled(s, step) && Exclusive(vms)
    ensures Exclusive(vms + BatchOf(s, step)) <==>
      forall i :: 0 <= i < |step.names| ==> PinIdentity(At(Free(s, step), step.start, i)) !in PinsOf(vms)
  {
    var batch := BatchOf(s, step);
    FreshBatch(s, step);
    PickedPins(s, step);
    BatchKeepsExclusiveIff(vms, batch);
    if Exclusive(vms + batch) {
      forall i | 0 <= i < |step.names|
        ensures PinIdentity(At(Free(s, step), step.start, i)) !in PinsOf(vms)
      {
        assert batch[i] in batch;
      }
    }
  }

  /** Two scale-ups from one state keep one VM per pin exactly when they pick no pin in common. */
  lemma TwoBatchesIff(s: State, one: Step, two: Step)
    requires Inv(s) && one.ScaleUp? && two.ScaleUp? && Enabled(s, one) && Enabled(s, two)
    ensures Exclusive(s.vms + BatchOf(s, one) + BatchOf(s, two)) <==>
      forall i, j :: 0 <= i < |one.names| && 0 <= j < |two.names| ==>
        PinIdentity(At(Free(s, one), one.start, i)) != PinIdentity(At(Free(s, two), two.start, j))
  {
    var b1, b2 := BatchOf(s, one), BatchOf(s, two);
    FreshBatch(s, one);
    FreshBatch(s, two);
    BatchKeepsExclusiveIff(s.vms, b1);
    BatchKeepsExclusiveIff(s.vms + b1, b2);
    forall j | 0 <= j < |b2|
      ensures PinOf(b2[j]) !in PinsOf(s.vms + b1) <==> PinOf(b2[j]) !in PinsOf(b1)
    {
      PinsOfConcat(s.vms, b1);
    }
    PickedPins(s, one);
    PickedPins(s, two);
  }

  lemma PinsOfConcat(a: seq<VM>, b: seq<VM>)
    ensures PinsOf(a + b) == PinsOf(a) + PinsOf(b)
  {
  }

  lemma PickedPins(s: State, step: Step)
    requires Inv(s) && step.ScaleUp? && Enabled(s, step)
    ensures forall i :: 0 <= i < |step.names| ==>
      PinOf(BatchOf(s, step)[i]) == PinIdentity(At(Free(s, step), step.start, i))
  {
  }

  /**
   Scale-ups of any sizes and cursors over one and the same free list: they keep
   one VM per pin exactly when, going round the list, each ends before the other
   begins.
   */
  lemma SharedSnapshotIff(s: State, one: Step, two: Step)
    requires Inv(s) && one.ScaleUp? && two.ScaleUp? && Enabled(s, one) && Enabled(s, two)
    requires Free(s, one) == Free(s, two)
    ensures var n := |Free(s, one)|;
      var d := Ahead(one.start, two.start, n);
      Exclusive(s.vms + BatchOf(s, one) + BatchOf(s, two)) <==> |one.names| <= d && |two.names| <= n - d
  {
    var free := Free(s, one);
    TwoBatchesIff(s, one, two);
    FreePinsDistinct(Live(s.workers, one.staleAfter, one.now), s.vms, one.labels, one.reserves);
    WindowsPickApart(free, one.start, |one.names|, two.start, |two.names|);
    ApartIff(one.start, |one.names|, two.start, |two.names|, |free|);
  }

  /** Over a list of distinct pins, no pin in common means no position in common. */
  lemma WindowsPickApart(free: seq<Worker>, a: nat, k: nat, b: nat, l: nat)
    requires free != []
    requires forall i, j :: 0 <= i < j < |free| ==> PinIdentity(free[i]) != PinIdentity(free[j])
    ensures Apart(a, k, b, l, |free|) <==>
      forall i, j :: 0 <= i < k && 0 <= j < l ==> PinIdentity(At(free, a, i)) != PinIdentity(At(free, b, j))
  {
    var n := |free|;
    if Apart(a, k, b, l, n) {
      forall i, j | 0 <= i < k && 0 <= j < l
        ensures PinIdentity(At(free, a, i)) != PinIdentity(At(free, b, j))
      {
        assert Slot(a + i, n) != Slot(b + j, n);
      }
    } else {
      var p, q :| a <= p < a + k && b <= q < b + l && Slot(p, n) == Slot(q, n);
      assert At(free, a, p - a) == At(free, b, q - b);
    }
  }

  /** Two bridges whose cursors stand on the same worker always double up from a shared snapshot. */
  lemma SharedSnapshotDoubles(s: State, one: Step, two: Step)
    requires Inv(s) && one.ScaleUp? && two.ScaleUp? && Enabled(s, one) && Enabled(s, two)
    requires Free(s, one) == Free(s, two)
    requires Slot(one.start, |Free(s, one)|) == Slot(two.start, |Free(s, one)|)
    ensures !Exclusive(s.vms + BatchOf(s, one) + BatchOf(s, two))
  {
    SharedSnapshotIff(s, one, two);
  }

  /**
   One bridge again on the snapshot its failed scale-up left behind, its cursor
   having moved on by all the slots it had acquired: one VM per pin is kept
   exactly when the second batch fits in what that left of the list.
   */
  lemma RetryOnOldSnapshotIff(s: State, one: Step, two: Step, acquired: nat)
    requires Inv(s) && one.ScaleUp? && two.ScaleUp? && Enabled(s, one) && Enabled(s, two)
    requires Free(s, one) == Free(s, two)
    requires |one.names| <= acquired <= |Free(s, one)| && two.start == one.start + acquired
    ensures Exclusive(s.vms + BatchOf(s, one) + BatchOf(s, two)) <==> |two.names| <= |Free(s, one)| - acquired
  {
    SharedSnapshotIff(s, one, two);
    ApartIff(one.start, |one.names|, two.start, |two.names|, |Free(s, one)|);
    NextWindow(one.start, |one.names|, acquired, |two.names|, |Free(s, one)|);
  }
}
