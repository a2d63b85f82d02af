/**
 Every interleaving of the bridges' scale-ups, job completions and the cleanup
 sweep, one lock region or client call per step.

 Two results over all runs: with no sweep in between, the semaphore's in-use
 count is exactly the VMs in Orchard plus the slots in flight; and no VM this
 process created or adopted is ever forgotten, except by one race the model
 pins down exactly.  Models bridge/bridge.go:141-204, 231-268, 379-436,
 bridge/capacity.go:34-56 and bridge/cleanup.go:84-120, 192-278, 402-433.
 */
module Fleet {
  import opened Seqs
  import opened CapacityModel

  type Name = string

  /** A bridge's scale-up: slots acquired and not yet turned into VMs, and whether a create failed. */
  datatype ScaleUp = Idle | Creating(left: nat) | Failing(left: nat)

  /**
   Where this process keeps a VM it created or adopted.  `Untracked` is between
   the create call and the activeVMs insertion; `Deleting`, `Deleted` and
   `Undeleted` are the phases of HandleJobCompleted once the entry is gone.
   */
  datatype Place = Untracked(bridge: nat) | Active(bridge: nat) | Deleting | Deleted | Undeleted

  /** A listing of Orchard: the VMs it showed, out of those that had ever existed. */
  datatype Listing = Listing(seen: set<Name>, born: set<Name>)

  datatype State = State(
    max: int,
    current: int,
    vms: set<Name>,
    born: set<Name>,
    place: map<Name, Place>,
    scaleUps: seq<ScaleUp>,
    pending: set<Name>,
    snapshot: Option<Listing>,
    sweep: Option<Listing>,
    reaped: set<Name>)

  datatype Step =
    // scale-up
    | Acquire(bridge: nat, wanted: nat)
    | Create(bridge: nat, vm: Name)
    | Track(vm: Name)
    | Skip(bridge: nat)
    | CreateFails(bridge: nat)
    | ReleaseRest(bridge: nat)
    | Finish(bridge: nat)
    // job completion
    | Complete(vm: Name)
    | DeleteOk(vm: Name)
    | DeleteFails(vm: Name)
    | Mark(vm: Name)
    | ReleaseOne(vm: Name)
    // cleanup
    | Read
    | SweepBegin
    | SweepDelete(vm: Name)
    | SweepClear(vm: Name)
    | SweepPurge(vm: Name)
    | SweepRetain
    | SweepEnd(actual: nat, max': int)

  predicate At(s: State, vm: Name, place: Place) {
    vm in s.place && s.place[vm] == place
  }

  predicate Enabled(s: State, step: Step) {
    match step
    case Acquire(b, _) => b < |s.scaleUps| && s.scaleUps[b].Idle?
    case Create(b, vm) => b < |s.scaleUps| && s.scaleUps[b].Creating? && s.scaleUps[b].left > 0 && vm !in s.born
    case Track(vm) => vm in s.place && s.place[vm].Untracked?
    case Skip(b) => b < |s.scaleUps| && s.scaleUps[b].Creating? && s.scaleUps[b].left > 0
    case CreateFails(b) => b < |s.scaleUps| && s.scaleUps[b].Creating? && s.scaleUps[b].left > 0
    case ReleaseRest(b) => b < |s.scaleUps| && s.scaleUps[b].Failing?
    case Finish(b) => b < |s.scaleUps| && s.scaleUps[b] == Creating(0)
    case Complete(vm) => vm in s.place && s.place[vm].Active?
    case DeleteOk(vm) => At(s, vm, Deleting)
    case DeleteFails(vm) => At(s, vm, Deleting)
    case Mark(vm) => At(s, vm, Undeleted)
    case ReleaseOne(vm) => At(s, vm, Deleted)
    case Read => true
    case SweepBegin => s.snapshot.Some? && s.sweep.None?
    case SweepDelete(vm) => s.sweep.Some? && vm in s.sweep.value.seen
    case SweepClear(vm) => vm in s.reaped
    case SweepPurge(vm) => vm in s.reaped
    case SweepRetain => s.sweep.Some?
    case SweepEnd(_, _) => s.sweep.Some?
  }

  function Apply(s: State, step: Step): State
    requires Enabled(s, step)
  {
    match step
    case Acquire(b, n) =>
      var acquired := Granted(s.current, s.max, n);
      if acquired <= 0 then s
      else s.(current := s.current + acquired, scaleUps := s.scaleUps[b := Creating(acquired)])
    case Create(b, vm) =>
      s.(vms := s.vms + {vm}, born := s.born + {vm}, place := s.place[vm := Untracked(b)],
         scaleUps := s.scaleUps[b := Creating(s.scaleUps[b].left - 1)])
    case Track(vm) => s.(place := s.place[vm := Active(s.place[vm].bridge)])
    case Skip(b) =>
      s.(current := Released(s.current, 1), scaleUps := s.scaleUps[b := Creating(s.scaleUps[b].left - 1)])
    case CreateFails(b) => s.(scaleUps := s.scaleUps[b := Failing(s.scaleUps[b].left)])
    case ReleaseRest(b) =>
      s.(current := Released(s.current, s.scaleUps[b].left), scaleUps := s.scaleUps[b := Idle])
    case Finish(b) => s.(scaleUps := s.scaleUps[b := Idle])
    case Complete(vm) => s.(place := s.place[vm := Deleting])
    case DeleteOk(vm) => s.(vms := s.vms - {vm}, place := s.place[vm := Deleted])
    case DeleteFails(vm) => s.(place := s.place[vm := Undeleted])
    case Mark(vm) => s.(place := s.place - {vm}, pending := s.pending + {vm})
    case ReleaseOne(vm) => s.(current := Released(s.current, 1), place := s.place - {vm})
    case Read => s.(snapshot := Some(Listing(s.vms, s.born)))
    case SweepBegin => s.(sweep := s.snapshot)
    case SweepDelete(vm) => s.(vms := s.vms - {vm}, reaped := s.reaped + {vm})
    case SweepClear(vm) => s.(pending := s.pending - {vm})
    case SweepPurge(vm) =>
      if vm in s.place && s.place[vm].Active? then s.(place := s.place - {vm}) else s
    case SweepRetain => s.(pending := s.pending * s.sweep.value.seen)
    case SweepEnd(actual, max') => s.(current := actual, max := max', sweep := None)
  }

  /** Start-up: every VM in sight has been adopted by one bridge and its slot reserved. */
  ghost predicate Init(s: State) {
    && s.born == s.vms == s.place.Keys
    && (forall vm :: vm in s.place ==> s.place[vm].Active?)
    && (forall b :: 0 <= b < |s.scaleUps| ==> s.scaleUps[b].Idle?)
    && s.current == |s.vms|
    && s.pending == {} && s.snapshot.None? && s.sweep.None? && s.reaped == {}
  }

  ghost predicate Reaches(s: State, steps: seq<Step>, t: State)
    decreases |steps|
  {
    if |steps| == 0 then s == t
    else Enabled(s, steps[0]) && Reaches(Apply(s, steps[0]), steps[1..], t)
  }

  // ---- Slot accounting --------------------------------------------------------

  function Left(up: ScaleUp): nat {
    if up.Idle? then 0 else up.left
  }

  /** Slots acquired by scale-ups in flight and not yet turned into VMs or given back. */
  function Reserved(ups: seq<ScaleUp>): nat {
    Sum(seq(|ups|, i requires 0 <= i < |ups| => Left(ups[i])))
  }

  /** Completions whose VM is gone and whose slot is not yet released. */
  function Unreleased(s: State): set<Name> {
    set vm | vm in s.place && s.place[vm] == Deleted
  }

  /** What every step keeps, sweeps included. */
  ghost predicate Accounted(s: State) {
    && s.vms <= s.born && s.place.Keys <= s.born
    && forall vm :: vm in s.place && s.place[vm] == Deleted ==> vm !in s.vms
  }

  /** Without sweeps there is more: only a completion takes a VM away. */
  ghost predicate PlacesMatchVMs(s: State) {
    && s.vms <= s.born && s.place.Keys <= s.born
    && forall vm :: vm in s.place ==> (s.place[vm] == Deleted <==> vm !in s.vms)
  }

  /** By how much the in-use count exceeds the VMs in Orchard plus every slot in flight. */
  function Drift(s: State): int {
    s.current - |s.vms| - Reserved(s.scaleUps) - |Unreleased(s)|
  }

  /** The in-use count is exactly the VMs in Orchard plus every slot in flight. */
  ghost predicate SlotsExact(s: State) {
    Drift(s) == 0
  }

  predicate SweepStep(step: Step) {
    step.SweepDelete? || step.SweepClear? || step.SweepPurge? || step.SweepRetain? || step.SweepEnd?
  }

  lemma ReservedUpdate(ups: seq<ScaleUp>, b: nat, up: ScaleUp)
    requires b < |ups|
    ensures Reserved(ups[b := up]) == Reserved(ups) - Left(ups[b]) + Left(up)
  {
    var lefts := seq(|ups|, i requires 0 <= i < |ups| => Left(ups[i]));
    var ups' := ups[b := up];
    assert lefts[b := Left(up)] == seq(|ups'|, i requires 0 <= i < |ups'| => Left(ups'[i]));
    SumUpdate(lefts, b, Left(up));
  }

  lemma ReservedBound(ups: seq<ScaleUp>, b: nat)
    requires b < |ups|
    ensures Left(ups[b]) <= Reserved(ups)
  {
    ReservedUpdate(ups, b, Idle);
  }

  lemma StepKeepsAccounted(s: State, step: Step)
    requires Accounted(s) && Enabled(s, step)
    ensures Accounted(Apply(s, step))
  {
  }

  lemma StepKeepsPlaces(s: State, step: Step)
    requires PlacesMatchVMs(s) && Enabled(s, step) && !SweepStep(step)
    ensures PlacesMatchVMs(Apply(s, step))
  {
  }

  /** What a step gives back to the semaphore. */
  function GivenBack(s: State, step: Step): nat
    requires Enabled(s, step)
  {
    match step
    case Skip(_) => 1
    case ReleaseRest(b) => s.scaleUps[b].left
    case ReleaseOne(_) => 1
    case _ => 0
  }

  /**
   What moves the drift: the floor, by what it swallows; a completion's delete of
   a VM a sweep has already deleted, and a sweep's delete of one that is there;
   and the end of a sweep, which overwrites the count.
   */
  function DriftMove(s: State, step: Step): int
    requires Enabled(s, step)
  {
    match step
    case Skip(_) => if GivenBack(s, step) > s.current then GivenBack(s, step) - s.current else 0
    case ReleaseRest(_) => if GivenBack(s, step) > s.current then GivenBack(s, step) - s.current else 0
    case ReleaseOne(_) => if GivenBack(s, step) > s.current then GivenBack(s, step) - s.current else 0
    case DeleteOk(vm) => if vm in s.vms then 0 else -1
    case SweepDelete(vm) => if vm in s.vms then 1 else 0
    case SweepEnd(actual, _) => actual - s.current
    case _ => 0
  }

  /** A step that rewrites one bridge's scale-up and nothing a VM's place depends on. */
  lemma SlotsMove(s: State, b: nat, up: ScaleUp, current: int)
    requires b < |s.scaleUps|
    ensures Drift(s.(current := current, scaleUps := s.scaleUps[b := up]))
         == Drift(s) + (current - s.current) + Left(s.scaleUps[b]) - Left(up)
  {
    ReservedUpdate(s.scaleUps, b, up);
    assert Unreleased(s.(current := current, scaleUps := s.scaleUps[b := up])) == Unreleased(s);
  }

  lemma CreateMovesNothing(s: State, b: nat, vm: Name)
    requires Accounted(s) && Enabled(s, Create(b, vm))
    ensures Drift(Apply(s, Create(b, vm))) == Drift(s)
  {
    ReservedUpdate(s.scaleUps, b, Creating(s.scaleUps[b].left - 1));
    assert vm !in s.vms && vm !in s.place;
    assert Unreleased(Apply(s, Create(b, vm))) == Unreleased(s);
  }

  lemma ScaleUpStepMovesDrift(s: State, step: Step)
    requires Accounted(s) && Enabled(s, step)
    requires step.Acquire? || step.Create? || step.Skip? || step.CreateFails? || step.ReleaseRest? || step.Finish?
    ensures Drift(Apply(s, step)) == Drift(s) + DriftMove(s, step)
  {
    match step
    case Acquire(b, n) =>
      var acquired := Granted(s.current, s.max, n);
      if acquired > 0 {
        SlotsMove(s, b, Creating(acquired), s.current + acquired);
      }
    case Create(b, vm) => CreateMovesNothing(s, b, vm);
    case Skip(b) => SlotsMove(s, b, Creating(s.scaleUps[b].left - 1), Released(s.current, 1));
    case CreateFails(b) => SlotsMove(s, b, Failing(s.scaleUps[b].left), s.current);
    case ReleaseRest(b) => SlotsMove(s, b, Idle, Released(s.current, s.scaleUps[b].left));
    case Finish(b) => SlotsMove(s, b, Idle, s.current);
  }

  lemma DriftParts(s: State, s': State)
    requires s'.scaleUps == s.scaleUps && Unreleased(s') == Unreleased(s)
    ensures Drift(s') - Drift(s) == s'.current - s.current - (|s'.vms| - |s.vms|)
  {
  }

  lemma LoseOne(vms: set<Name>, vm: Name)
    ensures |vms - {vm}| == |vms| - if vm in vms then 1 else 0
  {
    if vm !in vms {
      assert vms - {vm} == vms;
    }
  }

  lemma DeleteOkMovesDrift(s: State, vm: Name)
    requires Accounted(s) && Enabled(s, DeleteOk(vm))
    ensures Drift(Apply(s, DeleteOk(vm))) == Drift(s) - if vm in s.vms then 0 else 1
  {
    LoseOne(s.vms, vm);
    assert vm !in Unreleased(s);
    assert Unreleased(Apply(s, DeleteOk(vm))) == Unreleased(s) + {vm};
  }

  lemma ReleaseOneMovesDrift(s: State, vm: Name)
    requires Enabled(s, ReleaseOne(vm))
    ensures Drift(Apply(s, ReleaseOne(vm))) == Drift(s) + DriftMove(s, ReleaseOne(vm))
  {
    LoseOne(Unreleased(s), vm);
    assert vm in Unreleased(s);
    assert Unreleased(Apply(s, ReleaseOne(vm))) == Unreleased(s) - {vm};
  }

  lemma JobStepMovesDrift(s: State, step: Step)
    requires Accounted(s) && Enabled(s, step)
    requires step.Track? || step.Complete? || step.DeleteOk? || step.DeleteFails? || step.Mark? || step.ReleaseOne?
    ensures Drift(Apply(s, step)) == Drift(s) + DriftMove(s, step)
  {
    if step.DeleteOk? {
      DeleteOkMovesDrift(s, step.vm);
    } else if step.ReleaseOne? {
      ReleaseOneMovesDrift(s, step.vm);
    } else {
      assert Unreleased(Apply(s, step)) == Unreleased(s);
      DriftParts(s, Apply(s, step));
    }
  }

  lemma CleanupStepMovesDrift(s: State, step: Step)
    requires Enabled(s, step) && (step.Read? || step.SweepBegin? || SweepStep(step))
    ensures Drift(Apply(s, step)) == Drift(s) + DriftMove(s, step)
  {
    assert Unreleased(Apply(s, step)) == Unreleased(s);
    DriftParts(s, Apply(s, step));
    if step.SweepDelete? {
      LoseOne(s.vms, step.vm);
    }
  }

  /** Every step of the machine moves the drift by exactly this. */
  lemma StepMovesDrift(s: State, step: Step)
    requires Accounted(s) && Enabled(s, step)
    ensures Drift(Apply(s, step)) == Drift(s) + DriftMove(s, step)
  {
    if step.Read? || step.SweepBegin? || SweepStep(step) {
      CleanupStepMovesDrift(s, step);
    } else if step.Acquire? || step.Create? || step.Skip? || step.CreateFails? || step.ReleaseRest? || step.Finish? {
      ScaleUpStepMovesDrift(s, step);
    } else {
      JobStepMovesDrift(s, step);
    }
  }

  /** Release's floor at zero never fires: what is given back was in use. */
  lemma FloorNeverFires(s: State, step: Step)
    requires SlotsExact(s) && Enabled(s, step)
    ensures GivenBack(s, step) <= s.current
  {
    match step
    case Skip(b) => ReservedBound(s.scaleUps, b);
    case ReleaseRest(b) => ReservedBound(s.scaleUps, b);
    case ReleaseOne(vm) => assert vm in Unreleased(s);
    case _ =>
  }

  lemma StepExact(s: State, step: Step)
    requires PlacesMatchVMs(s) && SlotsExact(s) && Enabled(s, step) && !SweepStep(step)
    ensures PlacesMatchVMs(Apply(s, step)) && SlotsExact(Apply(s, step))
    ensures Apply(s, step).max == s.max
    ensures s.current <= s.max ==> Apply(s, step).current <= s.max
  {
    FloorNeverFires(s, step);
    StepMovesDrift(s, step);
    StepKeepsPlaces(s, step);
    assert step.DeleteOk? ==> step.vm in s.vms;
  }

  lemma InitExact(s: State)
    requires Init(s)
    ensures PlacesMatchVMs(s) && SlotsExact(s)
  {
    assert Unreleased(s) == {};
    NothingReserved(s.scaleUps);
  }

  lemma {:induction false} NothingReserved(ups: seq<ScaleUp>)
    requires forall b :: 0 <= b < |ups| ==> ups[b].Idle?
    ensures Reserved(ups) == 0
  {
    AllZero(seq(|ups|, i requires 0 <= i < |ups| => Left(ups[i])));
  }

  lemma {:induction false} AllZero(s: seq<nat>)
    requires forall i :: 0 <= i < |s| ==> s[i] == 0
    ensures Sum(s) == 0
  {
    if |s| == 0 {
    } else {
      AllZero(s[..|s| - 1]);
    }
  }

  lemma {:induction false} RunExact(s: State, steps: seq<Step>, t: State)
    requires PlacesMatchVMs(s) && SlotsExact(s) && Reaches(s, steps, t)
    requires forall step :: step in steps ==> !SweepStep(step)
    ensures PlacesMatchVMs(t) && SlotsExact(t) && t.max == s.max
    ensures s.current <= s.max ==> t.current <= t.max
    decreases |steps|
  {
    if |steps| == 0 {
    } else {
      StepExact(s, steps[0]);
      RunExact(Apply(s, steps[0]), steps[1..], t);
    }
  }

  /**
   From start-up, in every interleaving of bridges and jobs with no sweep, the
   semaphore is exact, so the VMs in Orchard never outnumber the maximum.
   */
  lemma SemaphoreIsExact(s: State, steps: seq<Step>, t: State)
    requires Init(s) && s.current <= s.max && Reaches(s, steps, t)
    requires forall step :: step in steps ==> !SweepStep(step)
    ensures t.current == |t.vms| + Reserved(t.scaleUps) + |Unreleased(t)|
    ensures |t.vms| <= t.current <= t.max == s.max
    ensures forall step :: Enabled(t, step) ==> GivenBack(t, step) <= t.current
  {
    InitExact(s);
    RunExact(s, steps, t);
    forall step | Enabled(t, step)
      ensures GivenBack(t, step) <= t.current
    {
      FloorNeverFires(t, step);
    }
  }

  // ---- With sweeps --------------------------------------------------------------

  /** All the moves of a run. */
  function DriftMoves(s: State, steps: seq<Step>): int
    decreases |steps|
  {
    if |steps| == 0 || !Enabled(s, steps[0]) then 0
    else DriftMove(s, steps[0]) + DriftMoves(Apply(s, steps[0]), steps[1..])
  }

  /** In every run, sweeps included, the drift is what it was and the moves, no more and no less. */
  lemma {:induction false} DriftExactly(s: State, steps: seq<Step>, t: State)
    requires Accounted(s) && Reaches(s, steps, t)
    ensures Accounted(t) && Drift(t) == Drift(s) + DriftMoves(s, steps)
    decreases |steps|
  {
    if |steps| == 0 {
    } else {
      StepMovesDrift(s, steps[0]);
      StepKeepsAccounted(s, steps[0]);
      DriftExactly(Apply(s, steps[0]), steps[1..], t);
    }
  }

  /**
   What the end of a sweep leaves, whichever of its listed VMs it counts: the
   counted VMs gone by then, less those born since it read, those it left out
   though they are there, and every slot in flight.
   */
  lemma SweepLeaves(s: State, counted: set<Name>, max': int)
    requires Tidy(s) && s.sweep.Some? && counted <= s.sweep.value.seen
    ensures var l := s.sweep.value;
      Drift(Apply(s, SweepEnd(|counted|, max')))
      == |counted - s.vms| - |s.vms - l.born| - |(l.seen - counted) * s.vms|
         - Reserved(s.scaleUps) - |Unreleased(s)|
  {
    var l := s.sweep.value;
    assert Unreleased(Apply(s, SweepEnd(|counted|, max'))) == Unreleased(s);
    assert s.vms - counted == (s.vms - l.born) + (l.seen - counted) * s.vms;
    assert (s.vms - l.born) * ((l.seen - counted) * s.vms) == {};
    assert counted == (counted - s.vms) + counted * s.vms;
    assert s.vms == (s.vms - counted) + counted * s.vms;
    assert |counted| - |s.vms| == |counted - s.vms| - |s.vms - counted|;
  }

  /** A sweep that counts all it listed but what it deleted leaves out nothing that is there. */
  lemma SweepDrift(s: State, max': int)
    requires Tidy(s) && s.sweep.Some?
    ensures var l := s.sweep.value;
      var counted := l.seen - s.reaped;
      Drift(Apply(s, SweepEnd(|counted|, max')))
      == |counted - s.vms| - |s.vms - l.born| - Reserved(s.scaleUps) - |Unreleased(s)|
  {
    var l := s.sweep.value;
    SweepLeaves(s, l.seen - s.reaped, max');
    assert (l.seen - (l.seen - s.reaped)) * s.vms == {};
  }

  /** VMs that are gone though no completion has deleted them: a sweep has. */
  function Gone(s: State): set<Name> {
    set vm | vm in s.place && (s.place[vm].Untracked? || s.place[vm].Active? || s.place[vm].Deleting?) && vm !in s.vms
  }

  /** Between sweeps, the drift falls only as the completion of a VM already gone comes through. */
  lemma DriftFallsWithGone(s: State, step: Step)
    requires Accounted(s) && Enabled(s, step) && !SweepStep(step)
    ensures Drift(Apply(s, step)) - |Gone(Apply(s, step))| >= Drift(s) - |Gone(s)|
  {
    StepMovesDrift(s, step);
    var s' := Apply(s, step);
    if step.DeleteOk? && step.vm !in s.vms {
      assert Gone(s') == Gone(s) - {step.vm} && step.vm in Gone(s);
    } else {
      assert Gone(s') <= Gone(s);
      FewerGone(Gone(s'), Gone(s));
    }
  }

  lemma FewerGone(a: set<Name>, b: set<Name>)
    requires a <= b
    ensures |a| <= |b|
  {
    assert b == a + (b - a);
  }

  lemma {:induction false} DriftHolds(s: State, steps: seq<Step>, t: State)
    requires Accounted(s) && Reaches(s, steps, t) && 0 <= s.current <= s.max
    requires forall step :: step in steps ==> !SweepStep(step)
    ensures Drift(t) - |Gone(t)| >= Drift(s) - |Gone(s)| && 0 <= t.current <= t.max == s.max
    decreases |steps|
  {
    if |steps| == 0 {
    } else {
      DriftFallsWithGone(s, steps[0]);
      StepKeepsAccounted(s, steps[0]);
      DriftHolds(Apply(s, steps[0]), steps[1..], t);
    }
  }

  /**
   Until the next sweep ends, VMs exceed the maximum by at most what the count
   fell short of them and of the slots in flight, and the VMs gone whose
   completion is still to come.
   */
  lemma OvershootBound(s: State, steps: seq<Step>, t: State)
    requires Accounted(s) && Reaches(s, steps, t) && 0 <= s.current <= s.max
    requires forall step :: step in steps ==> !SweepStep(step)
    ensures |t.vms| <= t.max - Drift(s) + |Gone(s)|
  {
    DriftHolds(s, steps, t);
  }

  lemma Prepend(s: State, step: Step, steps: seq<Step>, t: State)
    requires Enabled(s, step) && Reaches(Apply(s, step), steps, t)
    ensures Reaches(s, [step] + steps, t)
  {
    assert ([step] + steps)[1..] == steps;
  }

  /** A scale-up with one slot in hand, and another that takes the one the count shows free: two VMs. */
  lemma TwoMore(s: State, one: Name, two: Name) returns (t: State)
    requires |s.scaleUps| >= 2 && s.scaleUps[0] == Creating(1) && s.scaleUps[1].Idle? && s.current < s.max
    requires s.vms <= s.born && one !in s.born && two !in s.born && one != two
    ensures Reaches(s, [Create(0, one), Acquire(1, 1), Create(1, two)], t)
    ensures |t.vms| == |s.vms| + 2 && t.max == s.max
  {
    var s1 := Apply(s, Create(0, one));
    var s2 := Apply(s1, Acquire(1, 1));
    t := Apply(s2, Create(1, two));
    assert t.vms == s.vms + {one} + {two};
    assert Reaches(t, [], t);
    Prepend(s2, Create(1, two), [], t);
    Prepend(s1, Acquire(1, 1), [Create(1, two)], t);
    Prepend(s, Create(0, one), [Acquire(1, 1), Create(1, two)], t);
  }

  /** A sweep that runs while a scale-up holds one slot, counting exactly the VMs it listed. */
  function SweepDuringScaleUp(listed: nat, max: int): seq<Step> {
    [Acquire(0, 1), Read, SweepBegin, SweepRetain, SweepEnd(listed, max)]
  }

  /** From its first read to its end, with nothing queued, the sweep leaves only its listing behind. */
  lemma SweepPasses(s: State, rest: seq<Step>, t: State)
    requires s.sweep.None? && s.pending == {} && s.current == |s.vms| + 1
    requires Reaches(s.(snapshot := Some(Listing(s.vms, s.born)), current := |s.vms|), rest, t)
    ensures Reaches(s, [Read, SweepBegin, SweepRetain, SweepEnd(|s.vms|, s.max)] + rest, t)
  {
    var end, l := SweepEnd(|s.vms|, s.max), Some(Listing(s.vms, s.born));
    var s2 := s.(snapshot := l);
    var s3 := s2.(sweep := l);
    assert s3.pending * l.value.seen == s3.pending;
    Prepend(s3, end, rest, t);
    Prepend(s3, SweepRetain, [end] + rest, t);
    Prepend(s2, SweepBegin, [SweepRetain] + ([end] + rest), t);
    Prepend(s, Read, [SweepBegin] + ([SweepRetain] + ([end] + rest)), t);
    assert [Read, SweepBegin, SweepRetain, end] + rest
        == [Read] + ([SweepBegin] + ([SweepRetain] + ([end] + rest)));
  }

  lemma AcquireOne(s: State)
    requires s.scaleUps != [] && s.scaleUps[0].Idle? && s.current == s.max - 1
    ensures Enabled(s, Acquire(0, 1))
    ensures Apply(s, Acquire(0, 1)) == s.(current := s.current + 1, scaleUps := s.scaleUps[0 := Creating(1)])
  {
  }

  lemma SweepRuns(s: State, rest: seq<Step>, t: State, s1: State)
    requires s.sweep.None? && s.pending == {} && s.current == |s.vms| == s.max - 1
    requires s.scaleUps != [] && s.scaleUps[0].Idle? && s1 == Apply(s, Acquire(0, 1))
    requires Reaches(s1.(snapshot := Some(Listing(s1.vms, s1.born)), current := |s1.vms|), rest, t)
    ensures Reaches(s, SweepDuringScaleUp(|s.vms|, s.max) + rest, t)
  {
    AcquireOne(s);
    SweepPasses(s1, rest, t);
    var sweep := [Read, SweepBegin, SweepRetain, SweepEnd(|s.vms|, s.max)];
    Prepend(s, Acquire(0, 1), sweep + rest, t);
    assert SweepDuringScaleUp(|s.vms|, s.max) + rest == [Acquire(0, 1)] + (sweep + rest);
  }

  /**
   So a truthful sweep during a scale-up can put VMs past the maximum: from any
   start-up state with one slot left and two bridges, this run ends one over.
   */
  lemma SweepLosesSlotsInFlight(s: State, one: Name, two: Name) returns (t: State)
    requires Init(s) && |s.scaleUps| >= 2 && s.current == s.max - 1
    requires one !in s.born && two !in s.born && one != two
    ensures Reaches(s, SweepDuringScaleUp(|s.vms|, s.max) + [Create(0, one), Acquire(1, 1), Create(1, two)], t)
    ensures |t.vms| == t.max + 1 && t.max == s.max
  {
    var s1 := Apply(s, Acquire(0, 1));
    AcquireOne(s);
    t := TwoMore(s1.(snapshot := Some(Listing(s1.vms, s1.born)), current := |s1.vms|), one, two);
    SweepRuns(s, [Create(0, one), Acquire(1, 1), Create(1, two)], t, s1);
  }

  /** A job completes while the sweep deletes its VM, as a failed or expired one, and the count comes out exact. */
  function SweepDuringCompletion(vm: Name, counted: nat, max: int): seq<Step> {
    [Complete(vm), Read, SweepBegin, SweepDelete(vm), SweepRetain, SweepEnd(counted, max)]
  }

  lemma DeletingSweepEnds(s: State, vm: Name, rest: seq<Step>, t: State)
    requires s.sweep.Some? && vm in s.sweep.value.seen && s.pending == {} && vm in s.vms
    requires Reaches(s.(current := |s.vms| - 1, vms := s.vms - {vm}, reaped := s.reaped + {vm}, sweep := None), rest, t)
    ensures Reaches(s, [SweepDelete(vm), SweepRetain, SweepEnd(|s.vms| - 1, s.max)] + rest, t)
  {
    var end := SweepEnd(|s.vms| - 1, s.max);
    var s1 := s.(vms := s.vms - {vm}, reaped := s.reaped + {vm});
    assert s1.pending * s.sweep.value.seen == s1.pending;
    Prepend(s1, end, rest, t);
    Prepend(s1, SweepRetain, [end] + rest, t);
    Prepend(s, SweepDelete(vm), [SweepRetain] + ([end] + rest), t);
    assert [SweepDelete(vm), SweepRetain, end] + rest == [SweepDelete(vm)] + ([SweepRetain] + ([end] + rest));
  }

  lemma DeletingSweepPasses(s: State, vm: Name, rest: seq<Step>, t: State)
    requires s.sweep.None? && s.pending == {} && vm in s.vms && vm in s.place && s.place[vm].Active?
    requires Reaches(s.(current := |s.vms| - 1, vms := s.vms - {vm}, place := s.place[vm := Deleting],
                        snapshot := Some(Listing(s.vms, s.born)), reaped := s.reaped + {vm}), rest, t)
    ensures Reaches(s, SweepDuringCompletion(vm, |s.vms| - 1, s.max) + rest, t)
  {
    var l := Some(Listing(s.vms, s.born));
    var s1 := s.(place := s.place[vm := Deleting]);
    var s2 := s1.(snapshot := l);
    var ends := [SweepDelete(vm), SweepRetain, SweepEnd(|s.vms| - 1, s.max)] + rest;
    DeletingSweepEnds(s2.(sweep := l), vm, rest, t);
    Prepend(s2, SweepBegin, ends, t);
    Prepend(s1, Read, [SweepBegin] + ends, t);
    Prepend(s, Complete(vm), [Read] + ([SweepBegin] + ends), t);
    assert SweepDuringCompletion(vm, |s.vms| - 1, s.max) + rest == [Complete(vm)] + ([Read] + ([SweepBegin] + ends));
  }

  /** The completion gives its slot back a second time, and a scale-up takes both. */
  function LateCompletion(vm: Name, one: Name, two: Name): seq<Step> {
    [DeleteOk(vm), ReleaseOne(vm), Acquire(0, 2), Create(0, one), Create(0, two)]
  }

  lemma SecondRelease(s: State, vm: Name, rest: seq<Step>, t: State)
    requires At(s, vm, Deleting) && vm !in s.vms && s.scaleUps != [] && s.scaleUps[0].Idle?
    requires 1 <= s.current == s.max - 1
    requires Reaches(s.(current := s.max, place := s.place - {vm}, scaleUps := s.scaleUps[0 := Creating(2)]), rest, t)
    ensures Reaches(s, [DeleteOk(vm), ReleaseOne(vm), Acquire(0, 2)] + rest, t)
  {
    var s1 := Apply(s, DeleteOk(vm));
    assert s1 == s.(place := s.place[vm := Deleted]);
    var s2 := s.(current := s.current - 1, place := s.place - {vm});
    assert Apply(s1, ReleaseOne(vm)) == s2;
    Prepend(s2, Acquire(0, 2), rest, t);
    Prepend(s1, ReleaseOne(vm), [Acquire(0, 2)] + rest, t);
    Prepend(s, DeleteOk(vm), [ReleaseOne(vm)] + ([Acquire(0, 2)] + rest), t);
    assert [DeleteOk(vm), ReleaseOne(vm), Acquire(0, 2)] + rest
        == [DeleteOk(vm)] + ([ReleaseOne(vm)] + ([Acquire(0, 2)] + rest));
  }

  lemma TwoCreates(s: State, one: Name, two: Name) returns (t: State)
    requires s.scaleUps != [] && s.scaleUps[0] == Creating(2)
    requires s.vms <= s.born && one !in s.born && two !in s.born && one != two
    ensures Reaches(s, [Create(0, one), Create(0, two)], t) && |t.vms| == |s.vms| + 2 && t.max == s.max
  {
    var s1 := Apply(s, Create(0, one));
    t := Apply(s1, Create(0, two));
    assert t.vms == s.vms + {one} + {two};
    assert Reaches(t, [], t);
    Prepend(s1, Create(0, two), [], t);
    Prepend(s, Create(0, one), [Create(0, two)], t);
  }

  lemma LateCompletionRuns(s: State, vm: Name, one: Name, two: Name) returns (t: State)
    requires At(s, vm, Deleting) && vm !in s.vms && s.scaleUps != [] && s.scaleUps[0].Idle?
    requires 1 <= s.current == |s.vms| == s.max - 1
    requires s.vms <= s.born && one !in s.born && two !in s.born && one != two
    ensures Reaches(s, LateCompletion(vm, one, two), t) && |t.vms| == t.max + 1 && t.max == s.max
  {
    t := TwoCreates(s.(current := s.max, place := s.place - {vm}, scaleUps := s.scaleUps[0 := Creating(2)]), one, two);
    SecondRelease(s, vm, [Create(0, one), Create(0, two)], t);
    assert LateCompletion(vm, one, two)
        == [DeleteOk(vm), ReleaseOne(vm), Acquire(0, 2)] + [Create(0, one), Create(0, two)];
  }

  /**
   And even an exact count does not last: from any full start-up state, a sweep
   that deletes a VM whose completion is under way ends exact, and the run still
   ends one VM past the maximum.
   */
  lemma SlotGivenBackTwice(s: State, vm: Name, one: Name, two: Name) returns (swept: State, t: State)
    requires Init(s) && s.scaleUps != [] && s.current == s.max >= 2 && vm in s.vms
    requires one !in s.born && two !in s.born && one != two
    ensures Reaches(s, SweepDuringCompletion(vm, |s.vms| - 1, s.max), swept) && Drift(swept) == 0 && Gone(swept) == {vm}
    ensures Reaches(swept, LateCompletion(vm, one, two), t) && |t.vms| == t.max + 1 && t.max == s.max
  {
    swept := s.(current := |s.vms| - 1, vms := s.vms - {vm}, place := s.place[vm := Deleting],
                snapshot := Some(Listing(s.vms, s.born)), reaped := s.reaped + {vm});
    assert Reaches(swept, [], swept);
    DeletingSweepPasses(s, vm, [], swept);
    assert SweepDuringCompletion(vm, |s.vms| - 1, s.max) + [] == SweepDuringCompletion(vm, |s.vms| - 1, s.max);
    NothingReserved(s.scaleUps);
    assert Unreleased(swept) == {};
    t := LateCompletionRuns(swept, vm, one, two);
  }

  // ---- Nothing is forgotten ---------------------------------------------------

  /** Every VM of ours that Orchard still lists is tracked, being completed, or queued for deletion. */
  ghost predicate Covered(s: State) {
    forall vm :: vm in s.vms ==> vm in s.place || vm in s.pending
  }

  ghost predicate ListingSound(s: State, listing: Option<Listing>) {
    listing.Some? ==>
      var l := listing.value;
      l.seen <= l.born <= s.born && s.vms * l.born <= l.seen
  }

  ghost predicate Tidy(s: State) {
    && s.vms <= s.born && s.place.Keys <= s.born && s.reaped <= s.born && s.pending <= s.born
    && (forall vm :: vm in s.reaped ==> vm !in s.vms)
    && s.pending * s.place.Keys == {}
    && (forall vm :: At(s, vm, Deleted) ==> vm !in s.vms)
    && ListingSound(s, s.snapshot) && ListingSound(s, s.sweep)
  }

  /** The race: a VM born after the sweep read Orchard, finished and queued before the sweep drops unseen names. */
  ghost predicate MarkRaces(s: State) {
    s.sweep.Some? && exists vm :: vm in s.pending && vm in s.vms && vm !in s.sweep.value.born
  }

  lemma StepTidy(s: State, step: Step)
    requires Tidy(s) && Enabled(s, step)
    ensures Tidy(Apply(s, step))
  {
  }

  lemma StepCovers(s: State, step: Step)
    requires Tidy(s) && Covered(s) && Enabled(s, step) && !step.SweepRetain?
    ensures Covered(Apply(s, step))
  {
    var s' := Apply(s, step);
    forall vm | vm in s'.vms
      ensures vm in s'.place || vm in s'.pending
    {
      if vm in s.vms {
        assert vm in s.place || vm in s.pending;
      }
    }
  }

  /** Dropping unseen names from the queue forgets a VM exactly when a mark races the sweep. */
  lemma RetainForgetsIff(s: State)
    requires Tidy(s) && Covered(s) && Enabled(s, SweepRetain)
    ensures Covered(Apply(s, SweepRetain)) <==> !MarkRaces(s)
  {
    var s' := Apply(s, SweepRetain);
    if MarkRaces(s) {
      var vm :| vm in s.pending && vm in s.vms && vm !in s.sweep.value.born;
      assert vm !in s.pending * s.place.Keys;
      assert vm in s'.vms && vm !in s'.place && vm !in s'.pending;
    }
  }

  ghost predicate NoRace(s: State, steps: seq<Step>)
    decreases |steps|
  {
    |steps| > 0 && Enabled(s, steps[0]) ==>
      (steps[0].SweepRetain? ==> !MarkRaces(s)) && NoRace(Apply(s, steps[0]), steps[1..])
  }

  lemma {:induction false} RunCovers(s: State, steps: seq<Step>, t: State)
    requires Tidy(s) && Covered(s) && Reaches(s, steps, t) && NoRace(s, steps)
    ensures Tidy(t) && Covered(t)
    decreases |steps|
  {
    if |steps| == 0 {
    } else {
      StepTidy(s, steps[0]);
      if steps[0].SweepRetain? {
        RetainForgetsIff(s);
      } else {
        StepCovers(s, steps[0]);
      }
      RunCovers(Apply(s, steps[0]), steps[1..], t);
    }
  }

  /** From start-up, whatever interleaves, no VM is forgotten unless a mark races a sweep. */
  lemma NothingForgotten(s: State, steps: seq<Step>, t: State)
    requires Init(s) && Reaches(s, steps, t) && NoRace(s, steps)
    ensures forall vm :: vm in t.vms ==> vm in t.place || vm in t.pending
  {
    RunCovers(s, steps, t);
  }

  /** From an active VM the running sweep has not seen: its completion fails, is queued, and is dropped. */
  lemma DroppedMark(s: State, vm: Name) returns (steps: seq<Step>, t: State)
    requires vm in s.place && s.place[vm].Active? && vm in s.vms
    requires s.sweep.Some? && vm !in s.sweep.value.seen
    ensures Reaches(s, steps, t) && vm in t.vms && vm !in t.place && vm !in t.pending
  {
    var s1 := Apply(s, Complete(vm));
    var s2 := Apply(s1, DeleteFails(vm));
    var s3 := Apply(s2, Mark(vm));
    t := Apply(s3, SweepRetain);
    assert Reaches(t, [], t);
    Prepend(s3, SweepRetain, [], t);
    steps := [SweepRetain] + [];
    Prepend(s2, Mark(vm), steps, t);
    steps := [Mark(vm)] + steps;
    Prepend(s1, DeleteFails(vm), steps, t);
    steps := [DeleteFails(vm)] + steps;
    Prepend(s, Complete(vm), steps, t);
    steps := [Complete(vm)] + steps;
  }

  /** While a sweep is running, a bridge with a free slot brings up a VM the sweep has not seen. */
  lemma BornDuringSweep(s: State, vm: Name) returns (steps: seq<Step>, t: State)
    requires |s.scaleUps| > 0 && s.scaleUps[0].Idle? && s.current < s.max && vm !in s.born
    requires s.sweep.Some? && s.sweep.value.seen <= s.born
    ensures Reaches(s, steps, t) && vm in t.vms && vm !in t.place && vm !in t.pending
  {
    var s1 := Apply(s, Acquire(0, 1));
    var s2 := Apply(s1, Create(0, vm));
    var s3 := Apply(s2, Track(vm));
    steps, t := DroppedMark(s3, vm);
    Prepend(s2, Track(vm), steps, t);
    steps := [Track(vm)] + steps;
    Prepend(s1, Create(0, vm), steps, t);
    steps := [Create(0, vm)] + steps;
    Prepend(s, Acquire(0, 1), steps, t);
    steps := [Acquire(0, 1)] + steps;
  }

  /**
   The race is real: from any start-up state with a free slot, one VM created
   after the sweep's listing, finished and queued while the controller was
   failing, ends up listed by Orchard and remembered by nobody.
   */
  lemma MarkRaceForgets(s: State, vm: Name)
    requires Init(s) && |s.scaleUps| > 0 && s.current < s.max && vm !in s.born
    ensures exists steps, t :: Reaches(s, steps, t) && vm in t.vms && vm !in t.place && vm !in t.pending
  {
    var s1 := Apply(s, Read);
    var s2 := Apply(s1, SweepBegin);
    var steps, t := BornDuringSweep(s2, vm);
    Prepend(s1, SweepBegin, steps, t);
    Prepend(s, Read, [SweepBegin] + steps, t);
  }
}
