/**
 What whole scale-ups amount to: runs of fixed-size ones over one pool, an
 AutoSize one repeated on the snapshot a failure left behind, and any of them,
 or a job completion, as a run of the interleaving machine.
 Models bridge/bridge.go:141-276 and 379-424.
 */
module ScaleUps {
  import opened Seqs
  import opened Orchard
  import opened Workers
  import opened AutoSize
  import opened Fairness
  import opened Placement
  import opened CapacityModel
  import opened Snapshots
  import opened Bridges
  import F = Fleet

  // ---- Fixed-size scale-ups, one after another ----------------------------------

  /** One call: the bridge, GitHub's count, what the bridge and the semaphore held, and Orchard's answers. */
  datatype Call = Call(cfg: Settings, count: int, active: nat, current: int, max: int, outcomes: seq<Outcome>)

  function AcquiredBy(call: Call, view: View): nat {
    Acquired(call.cfg, view, call.count, call.active, call.current, call.max)
  }

  /** The names of the VMs it creates. */
  function NamesBy(call: Call, view: View): seq<string> {
    Names(call.cfg.scaleSet, call.outcomes, Leading(call.outcomes, 0, AcquiredBy(call, view)))
  }

  /** What the next scale-up finds: Orchard with this one's VMs. */
  function After(snap: Snapshot, call: Call): Snapshot {
    snap.(vms := snap.vms + NewVMs(call.cfg, Have(snap), 0, NamesBy(call, Have(snap))))
  }

  function AfterAll(snap: Snapshot, calls: seq<Call>): Snapshot
    decreases |calls|
  {
    if |calls| == 0 then snap else AfterAll(After(snap, calls[0]), calls[1..])
  }

  function CreatedByAll(snap: Snapshot, calls: seq<Call>): nat
    decreases |calls|
  {
    if |calls| == 0 then 0 else |NamesBy(calls[0], Have(snap))| + CreatedByAll(After(snap, calls[0]), calls[1..])
  }

  /**
   Scale sets that share a pool, scaling up one after another over a fixed
   fleet, each from a snapshot read after the one before, raise its load by
   exactly the VMs they create and never push it past its slots.
   */
  lemma {:induction false} PoolNeverOverfilled(snap: Snapshot, labels: Labels, calls: seq<Call>)
    requires forall i :: 0 <= i < |calls| ==> !calls[i].cfg.autoSize && calls[i].cfg.labels == labels
    ensures var before, after := PoolLoad(snap, labels), PoolLoad(AfterAll(snap, calls), labels);
      && after == before + CreatedByAll(snap, calls)
      && (after <= before || after <= CapacityFor(snap.workers, labels))
    decreases |calls|
  {
    if |calls| == 0 {
    } else {
      var c := calls[0];
      FixedScaleUpAdmission(c.cfg, snap, c.count, c.active, c.current, c.max, c.outcomes, 0);
      PoolNeverOverfilled(After(snap, c), labels, calls[1..]);
    }
  }

  // ---- Fixed-size scale-ups from one snapshot ---------------------------------------

  /** Orchard after calls that all read this one snapshot, its VMs being `vms` when the first creates. */
  function AfterStale(snap: Snapshot, vms: seq<VM>, calls: seq<Call>): seq<VM>
    decreases |calls|
  {
    if |calls| == 0 then vms
    else
      var view := Have(snap);
      AfterStale(snap, vms + NewVMs(calls[0].cfg, view, 0, NamesBy(calls[0], view)), calls[1..])
  }

  function CreatedFrom(snap: Snapshot, calls: seq<Call>): nat
    decreases |calls|
  {
    if |calls| == 0 then 0 else |NamesBy(calls[0], Have(snap))| + CreatedFrom(snap, calls[1..])
  }

  lemma {:induction false} StaleLoads(snap: Snapshot, vms: seq<VM>, labels: Labels, calls: seq<Call>)
    requires forall i :: 0 <= i < |calls| ==> !calls[i].cfg.autoSize && calls[i].cfg.labels == labels
    ensures PoolLoad(snap.(vms := AfterStale(snap, vms, calls)), labels)
         == PoolLoad(snap.(vms := vms), labels) + CreatedFrom(snap, calls)
    decreases |calls|
  {
    if |calls| == 0 {
    } else {
      var c, names := calls[0], NamesBy(calls[0], Have(snap));
      var batch := NewVMs(c.cfg, Have(snap), 0, names);
      FixedBatchIsFresh(c, Have(snap), batch);
      NewVMsAreCounted(snap.(vms := vms), labels, batch);
      assert snap.(vms := vms).(vms := vms + batch) == snap.(vms := vms + batch);
      StaleLoads(snap, vms + batch, labels, calls[1..]);
    }
  }

  lemma FixedBatchIsFresh(call: Call, view: View, batch: seq<VM>)
    requires !call.cfg.autoSize && batch == NewVMs(call.cfg, view, 0, NamesBy(call, view))
    ensures |batch| == |NamesBy(call, view)| && forall vm :: vm in batch ==> FreshInPool(vm, call.cfg.labels)
  {
    var names := NamesBy(call, view);
    NamesAreManaged(call.cfg.scaleSet, call.outcomes, |names|);
    assert |batch| == |names| && forall i :: 0 <= i < |batch| ==> batch[i].name == names[i] && names[i] in names;
  }

  /**
   Scale-ups that all read one snapshot, as they do after a create error or
   before another bridge has dropped it, whatever has happened to Orchard since:
   the pool stays within its slots exactly when together they create no more
   than the slots its load left free as the first began.
   */
  lemma SharedSnapshotFitsIff(snap: Snapshot, vms: seq<VM>, labels: Labels, calls: seq<Call>)
    requires forall i :: 0 <= i < |calls| ==> !calls[i].cfg.autoSize && calls[i].cfg.labels == labels
    ensures var before := PoolLoad(snap.(vms := vms), labels);
      var after := PoolLoad(snap.(vms := AfterStale(snap, vms, calls)), labels);
      var slots := CapacityFor(snap.workers, labels);
      && after == before + CreatedFrom(snap, calls)
      && (after <= slots <==> CreatedFrom(snap, calls) <= slots - before)
  {
    StaleLoads(snap, vms, labels, calls);
  }

  /**
   The failing family: a pool with free slots, one scale-up that asks for them
   all and fails after its first VM, and another scale set's on the snapshot
   that stayed cached, which fills them all: as long as the semaphore has as
   many for each, the pool ends one VM over.
   */
  lemma FailureOverfills(snap: Snapshot, first: Call, again: Call)
    requires !first.cfg.autoSize && !again.cfg.autoSize && again.cfg.labels == first.cfg.labels
    requires var free := CapacityFor(snap.workers, first.cfg.labels) - PoolLoad(snap, first.cfg.labels);
      && free >= 2
      && AsksForAll(first, free) && OutcomeAt(first.outcomes, 0).Created? && OutcomeAt(first.outcomes, 1).CreateFailed?
      && AsksForAll(again, free) && forall i :: 0 <= i < free ==> OutcomeAt(again.outcomes, i).Created?
    ensures AcquiredBy(first, Have(snap)) > |NamesBy(first, Have(snap))| == 1
    ensures PoolLoad(snap.(vms := AfterStale(snap, snap.vms, [first, again])), first.cfg.labels)
         == CapacityFor(snap.workers, first.cfg.labels) + 1
  {
    var free: nat := CapacityFor(snap.workers, first.cfg.labels) - PoolLoad(snap, first.cfg.labels);
    FillsRoom(snap, first, free);
    FillsRoom(snap, again, free);
    LeadingAll(again.outcomes, 0, free);
    StaleLoads(snap, snap.vms, first.cfg.labels, [first, again]);
    assert snap.(vms := snap.vms) == snap;
    TwoCreate(snap, first, again);
  }

  /**
   Where both go through one semaphore, the first having left one slot in use,
   the pool ends over its slots exactly when the semaphore had more slots left
   than the pool.
   */
  lemma FailureOverfillsIff(snap: Snapshot, first: Call, again: Call)
    requires !first.cfg.autoSize && !again.cfg.autoSize && again.cfg.labels == first.cfg.labels
    requires again.max == first.max && again.current == first.current + 1
    requires var free := CapacityFor(snap.workers, first.cfg.labels) - PoolLoad(snap, first.cfg.labels);
      && free >= 2 && first.max - first.current >= 2
      && first.count - first.active >= free && again.count - again.active >= free
      && OutcomeAt(first.outcomes, 0).Created? && OutcomeAt(first.outcomes, 1).CreateFailed?
      && forall i :: 0 <= i < free ==> OutcomeAt(again.outcomes, i).Created?
    ensures AcquiredBy(first, Have(snap)) > |NamesBy(first, Have(snap))| == 1
    ensures var slots := CapacityFor(snap.workers, first.cfg.labels);
      PoolLoad(snap.(vms := AfterStale(snap, snap.vms, [first, again])), first.cfg.labels) > slots
      <==> first.max - first.current > slots - PoolLoad(snap, first.cfg.labels)
  {
    var free: nat := CapacityFor(snap.workers, first.cfg.labels) - PoolLoad(snap, first.cfg.labels);
    TakesLess(snap, first, free);
    TakesLess(snap, again, free);
    LeadingAll(again.outcomes, 0, AcquiredBy(again, Have(snap)));
    StaleLoads(snap, snap.vms, first.cfg.labels, [first, again]);
    assert snap.(vms := snap.vms) == snap;
    TwoCreate(snap, first, again);
  }

  /** With demand enough, a call takes what the pool has or what the semaphore has, the less of the two. */
  lemma TakesLess(snap: Snapshot, call: Call, free: nat)
    requires !call.cfg.autoSize && free >= 1 && call.count - call.active >= free && call.max - call.current >= 1
    requires free == CapacityFor(snap.workers, call.cfg.labels) - PoolLoad(snap, call.cfg.labels)
    ensures AcquiredBy(call, Have(snap)) == if call.max - call.current < free then call.max - call.current else free
  {
  }

  lemma TwoCreate(snap: Snapshot, first: Call, again: Call)
    ensures CreatedFrom(snap, [first, again]) == |NamesBy(first, Have(snap))| + |NamesBy(again, Have(snap))|
  {
    assert [first, again][1..] == [again] && [again][1..] == [];
    assert CreatedFrom(snap, [again]) == |NamesBy(again, Have(snap))| + CreatedFrom(snap, []);
  }

  /** GitHub wants, and the semaphore has, at least this many. */
  predicate AsksForAll(call: Call, free: int) {
    call.count - call.active >= free && call.max - call.current >= free
  }

  lemma FillsRoom(snap: Snapshot, call: Call, free: nat)
    requires !call.cfg.autoSize && free >= 1 && AsksForAll(call, free)
    requires free == CapacityFor(snap.workers, call.cfg.labels) - PoolLoad(snap, call.cfg.labels)
    ensures AcquiredBy(call, Have(snap)) == free
  {
  }

  lemma {:induction false} LeadingAll(outcomes: seq<Outcome>, i: nat, n: nat)
    requires i <= n && forall j :: i <= j < n ==> OutcomeAt(outcomes, j).Created?
    ensures Leading(outcomes, i, n) == n
    decreases n - i
  {
    if i < n {
      LeadingAll(outcomes, i + 1, n);
    }
  }

  // ---- AutoSize placements are fair -------------------------------------------------

  /** An AutoSize scale-up and the snapshot it read. */
  datatype Turn = Turn(call: Call, snap: Snapshot)

  function SizeOf(turn: Turn): nat {
    AcquiredBy(turn.call, Have(turn.snap))
  }

  function VMsOf(cfg: Settings, cursor: nat, turn: Turn): seq<VM> {
    NewVMs(cfg, Have(turn.snap), cursor, NamesBy(turn.call, Have(turn.snap)))
  }

  /** What one bridge's scale-ups create, one by one, its cursor moving on by what each acquires. */
  function Batches(cfg: Settings, cursor: nat, turns: seq<Turn>): seq<seq<VM>>
    decreases |turns|
  {
    if |turns| == 0 then []
    else [VMsOf(cfg, cursor, turns[0])] + Batches(cfg, cursor + SizeOf(turns[0]), turns[1..])
  }

  function Flat(batches: seq<seq<VM>>): seq<VM> {
    if |batches| == 0 then [] else batches[0] + Flat(batches[1..])
  }

  /** All the VMs of all these scale-ups. */
  function PlacedBy(cfg: Settings, cursor: nat, turns: seq<Turn>): seq<VM> {
    Flat(Batches(cfg, cursor, turns))
  }

  function Sizes(turns: seq<Turn>): seq<nat> {
    seq(|turns|, i requires 0 <= i < |turns| => SizeOf(turns[i]))
  }

  /** Each scale-up finds this free list, and every create works. */
  predicate Steady(cfg: Settings, free: seq<Worker>, turns: seq<Turn>)
    decreases |turns|
  {
    cfg.autoSize && free != [] && (|turns| > 0 ==> SteadyTurn(cfg, free, turns[0]) && Steady(cfg, free, turns[1..]))
  }

  predicate SteadyTurn(cfg: Settings, free: seq<Worker>, turn: Turn) {
    && turn.call.cfg == cfg && FreeIn(cfg, turn.snap) == free
    && |NamesBy(turn.call, Have(turn.snap))| == AcquiredBy(turn.call, Have(turn.snap))
  }

  /** The VMs are pinned, in order, to the workers at these positions. */
  ghost predicate Follows(free: seq<Worker>, vms: seq<VM>, at: seq<int>) {
    |vms| == |at| && forall i :: 0 <= i < |at| ==> 0 <= at[i] < |free| && PinOf(vms[i]) == PinIdentity(free[at[i]])
  }

  /** Batch by batch, from this cursor on, the VMs follow the rotation. */
  ghost predicate EachFollows(free: seq<Worker>, cursor: nat, batches: seq<seq<VM>>, sizes: seq<nat>)
    requires free != []
    decreases |batches|
  {
    && |batches| == |sizes|
    && (|batches| > 0 ==>
          && Follows(free, batches[0], BatchIndices(cursor, sizes[0], |free|))
          && EachFollows(free, cursor + sizes[0], batches[1..], sizes[1..]))
  }

  lemma {:induction false} SteadyFollows(cfg: Settings, free: seq<Worker>, cursor: nat, turns: seq<Turn>)
    requires Steady(cfg, free, turns)
    ensures EachFollows(free, cursor, Batches(cfg, cursor, turns), Sizes(turns))
    decreases |turns|
  {
    if |turns| == 0 {
    } else {
      OneTurn(cfg, free, cursor, turns[0]);
      SteadyFollows(cfg, free, cursor + SizeOf(turns[0]), turns[1..]);
      SizesStep(turns);
      EachFollowsStep(free, cursor, VMsOf(cfg, cursor, turns[0]),
                      Batches(cfg, cursor + SizeOf(turns[0]), turns[1..]), Sizes(turns));
    }
  }

  lemma EachFollowsStep(free: seq<Worker>, cursor: nat, batch: seq<VM>, rest: seq<seq<VM>>, sizes: seq<nat>)
    requires free != [] && sizes != []
    requires Follows(free, batch, BatchIndices(cursor, sizes[0], |free|))
    requires EachFollows(free, cursor + sizes[0], rest, sizes[1..])
    ensures EachFollows(free, cursor, [batch] + rest, sizes)
  {
    assert ([batch] + rest)[1..] == rest;
  }

  /** The VMs go, in order, to the workers the rotation picks. */
  lemma {:induction false} BatchesFollowRotation(free: seq<Worker>, cursor: nat, batches: seq<seq<VM>>, sizes: seq<nat>)
    requires free != [] && EachFollows(free, cursor, batches, sizes)
    ensures Follows(free, Flat(batches), Placements(cursor, sizes, |free|))
    decreases |batches|
  {
    if |batches| == 0 {
    } else {
      BatchesFollowRotation(free, cursor + sizes[0], batches[1..], sizes[1..]);
      FollowsStep(free, cursor, batches[0], Flat(batches[1..]), sizes);
    }
  }

  lemma SizesStep(turns: seq<Turn>)
    requires turns != []
    ensures Sizes(turns)[0] == SizeOf(turns[0]) && Sizes(turns)[1..] == Sizes(turns[1..])
  {
  }

  lemma FollowsStep(free: seq<Worker>, cursor: nat, vms: seq<VM>, rest: seq<VM>, sizes: seq<nat>)
    requires free != [] && sizes != []
    requires Follows(free, vms, BatchIndices(cursor, sizes[0], |free|))
    requires Follows(free, rest, Placements(cursor + sizes[0], sizes[1..], |free|))
    ensures Follows(free, vms + rest, Placements(cursor, sizes, |free|))
  {
  }

  lemma OneTurn(cfg: Settings, free: seq<Worker>, cursor: nat, turn: Turn)
    requires cfg.autoSize && free != [] && SteadyTurn(cfg, free, turn)
    ensures Follows(free, VMsOf(cfg, cursor, turn), BatchIndices(cursor, SizeOf(turn), |free|))
  {
    var names := NamesBy(turn.call, Have(turn.snap));
    BatchFollows(free, cursor, names, cfg.labels, EffectiveOf(cfg));
    assert names != [] ==> VMsOf(cfg, cursor, turn) == Batch(free, cursor, names, cfg.labels, EffectiveOf(cfg));
  }

  lemma BatchFollows(free: seq<Worker>, start: nat, names: seq<string>, labels: Labels, reserves: Reserves)
    requires free != []
    ensures Follows(free, Batch(free, start, names, labels, reserves), BatchIndices(start, |names|, |free|))
  {
    var vms, at := Batch(free, start, names, labels, reserves), BatchIndices(start, |names|, |free|);
    forall i | 0 <= i < |at|
      ensures 0 <= at[i] < |free| && PinOf(vms[i]) == PinIdentity(free[at[i]])
    {
      assert vms[i] == BuildVM(names[i], free[at[i]], labels, reserves);
    }
  }

  /**
   Over any run of one bridge's scale-ups, as long as the free list stays what
   it was and every create works, any two of its workers get the same number of
   VMs, or one gets one more.
   */
  lemma FairPlacement(cfg: Settings, free: seq<Worker>, cursor: nat, turns: seq<Turn>, r: nat, r': nat)
    requires Steady(cfg, free, turns) && turns != [] && r < |free| && r' < |free|
    ensures var vms := PlacedBy(cfg, cursor, turns);
      -1 <= |Filter((vm: VM) => PinOf(vm) == PinIdentity(free[r]), vms)|
            - |Filter((vm: VM) => PinOf(vm) == PinIdentity(free[r']), vms)| <= 1
  {
    assert SteadyTurn(cfg, free, turns[0]);
    FreePinsDistinct(turns[0].snap.workers, turns[0].snap.vms, cfg.labels, EffectiveOf(cfg));
    SteadyFollows(cfg, free, cursor, turns);
    BatchesFollowRotation(free, cursor, Batches(cfg, cursor, turns), Sizes(turns));
    CountsMatch(free, PlacedBy(cfg, cursor, turns), Placements(cursor, Sizes(turns), |free|), r);
    CountsMatch(free, PlacedBy(cfg, cursor, turns), Placements(cursor, Sizes(turns), |free|), r');
    FairRun(cursor, Sizes(turns), |free|, r, r');
  }

  /** With distinct pins, the VMs with a worker's pin are the placements at its position. */
  lemma {:induction false} CountsMatch(free: seq<Worker>, vms: seq<VM>, at: seq<int>, r: nat)
    requires forall i, j :: 0 <= i < j < |free| ==> PinIdentity(free[i]) != PinIdentity(free[j])
    requires Follows(free, vms, at) && r < |free|
    ensures |Filter((vm: VM) => PinOf(vm) == PinIdentity(free[r]), vms)| == |Filter((x: int) => x == r, at)|
  {
    if |vms| > 0 {
      var n := |vms| - 1;
      CountsMatch(free, vms[..n], at[..n], r);
      assert PinIdentity(free[at[n]]) == PinIdentity(free[r]) <==> at[n] == r;
    }
  }

  // ---- An AutoSize scale-up repeated on an old snapshot ---------------------------

  /**
   A create error leaves the snapshot in the cache.  Should the same bridge, its
   listener going on, scale up again before it expires, one VM per pin is kept exactly when the second
   batch fits in the part of the free list the first had not reached for.
   */
  lemma RetryAfterFailureIff(s: State, at: int, staleAfter: int, cursor: nat, first: Call, again: Call,
                             view: View, next: nat, batch: seq<VM>, batch': seq<VM>)
    requires Placement.Inv(s) && first.cfg.autoSize && again.cfg == first.cfg
    requires view == Have(NewSnapshot(s.vms, s.workers, at, staleAfter)) && next == cursor + AcquiredBy(first, view)
    requires NamesBy(first, view) != [] && NamesBy(again, view) != []
    requires batch == NewVMs(first.cfg, view, cursor, NamesBy(first, view))
    requires batch' == NewVMs(again.cfg, view, next, NamesBy(again, view))
    ensures Exclusive(s.vms + batch + batch') <==>
      |NamesBy(again, view)| <= |FreeIn(first.cfg, view.snap)| - AcquiredBy(first, view)
  {
    var one := CallIsPlacementStep(s, at, staleAfter, cursor, first, view);
    var two := CallIsPlacementStep(s, at, staleAfter, next, again, view);
    RetriedBatchesIff(s, one, two, AcquiredBy(first, view), batch, batch', FreeIn(first.cfg, view.snap));
  }

  lemma RetriedBatchesIff(s: State, one: Placement.Step, two: Placement.Step, acquired: nat,
                          batch: seq<VM>, batch': seq<VM>, free: seq<Worker>)
    requires Placement.Inv(s) && one.ScaleUp? && two.ScaleUp? && Placement.Enabled(s, one) && Placement.Enabled(s, two)
    requires Free(s, one) == Free(s, two) == free
    requires batch == BatchOf(s, one) && batch' == BatchOf(s, two)
    requires |one.names| <= acquired <= |free| && two.start == one.start + acquired
    ensures Exclusive(s.vms + batch + batch') <==> |two.names| <= |free| - acquired
  {
    RetryOnOldSnapshotIff(s, one, two, acquired);
  }

  lemma CallIsPlacementStep(s: State, at: int, staleAfter: int, cursor: nat, call: Call, view: View)
    returns (step: Placement.Step)
    requires call.cfg.autoSize && view == Have(NewSnapshot(s.vms, s.workers, at, staleAfter))
    requires NamesBy(call, view) != []
    ensures step.ScaleUp? && step.start == cursor && |step.names| == |NamesBy(call, view)|
    ensures Placement.Enabled(s, step) && Free(s, step) == FreeIn(call.cfg, view.snap)
    ensures BatchOf(s, step) == NewVMs(call.cfg, view, cursor, NamesBy(call, view))
    ensures |step.names| <= AcquiredBy(call, view) <= |FreeIn(call.cfg, view.snap)|
  {
    step := ScaleUp(staleAfter, at, call.cfg.labels, EffectiveOf(call.cfg), cursor, NamesBy(call, view));
    AutoSizeScaleUpIsPlacementStep(call.cfg, s, at, staleAfter, cursor, call.count, call.active, call.current,
                                   call.max, call.outcomes);
    AcquiredIsLargest(call.cfg, view, call.count, call.active, call.current, call.max);
  }

  // ---- As runs of the interleaving machine ----------------------------------------

  function CreateSteps(b: nat, names: seq<string>): seq<F.Step> {
    if |names| == 0 then [] else [F.Create(b, names[0]), F.Track(names[0])] + CreateSteps(b, names[1..])
  }

  function EndSteps(b: nat, created: nat, acquired: nat): seq<F.Step> {
    if acquired == 0 then [] else if created == acquired then [F.Finish(b)] else [F.CreateFails(b), F.ReleaseRest(b)]
  }

  ghost predicate Unused(names: seq<string>, born: set<string>) {
    && (forall i, j :: 0 <= i < j < |names| ==> names[i] != names[j])
    && forall n :: n in names ==> n !in born
  }

  function Elements(names: seq<string>): set<string> {
    set n | n in names
  }

  function Placed(place: map<string, F.Place>, b: nat, names: seq<string>): map<string, F.Place> {
    place + map n | n in Elements(names) :: F.Active(b)
  }

  lemma ElementsStep(vms: set<string>, names: seq<string>)
    requires |names| > 0
    ensures vms + {names[0]} + Elements(names[1..]) == vms + Elements(names)
  {
    assert names == [names[0]] + names[1..];
  }

  lemma PlacedStep(place: map<string, F.Place>, b: nat, names: seq<string>)
    requires |names| > 0
    ensures Placed(place[names[0] := F.Active(b)], b, names[1..]) == Placed(place, b, names)
  {
    assert names == [names[0]] + names[1..];
    assert forall n :: n in Elements(names) <==> n == names[0] || n in Elements(names[1..]);
  }

  /** The machine once bridge `b` has brought up and tracked these VMs. */
  function WithVMs(s: F.State, b: nat, names: seq<string>): F.State {
    s.(vms := s.vms + Elements(names), born := s.born + Elements(names), place := Placed(s.place, b, names))
  }

  lemma {:induction false} ReachesConcat(s: F.State, xs: seq<F.Step>, t: F.State, ys: seq<F.Step>, u: F.State)
    requires F.Reaches(s, xs, t) && F.Reaches(t, ys, u)
    ensures F.Reaches(s, xs + ys, u)
    decreases |xs|
  {
    if |xs| == 0 {
      assert xs + ys == ys;
    } else {
      ReachesConcat(F.Apply(s, xs[0]), xs[1..], t, ys, u);
      assert (xs + ys)[1..] == xs[1..] + ys;
    }
  }

  lemma ReachesOne(s: F.State, x: F.Step)
    requires F.Enabled(s, x)
    ensures F.Reaches(s, [x], F.Apply(s, x))
  {
    assert F.Reaches(F.Apply(s, x), [], F.Apply(s, x));
  }

  lemma ReachesTwo(s: F.State, x: F.Step, y: F.Step)
    requires F.Enabled(s, x) && F.Enabled(F.Apply(s, x), y)
    ensures F.Reaches(s, [x, y], F.Apply(F.Apply(s, x), y))
  {
    ReachesOne(s, x);
    ReachesOne(F.Apply(s, x), y);
    ReachesConcat(s, [x], F.Apply(s, x), [y], F.Apply(F.Apply(s, x), y));
    assert [x] + [y] == [x, y];
  }

  /** One VM brought up and tracked, one slot less in hand. */
  function Brought(s: F.State, b: nat, name: string, left: nat): F.State
    requires b < |s.scaleUps| && left > 0
  {
    s.(vms := s.vms + {name}, born := s.born + {name}, place := s.place[name := F.Active(b)],
       scaleUps := s.scaleUps[b := F.Creating(left - 1)])
  }

  lemma BroughtUp(s: F.State, b: nat, name: string, left: nat)
    requires b < |s.scaleUps| && s.scaleUps[b] == F.Creating(left) && left > 0 && name !in s.born
    ensures F.Reaches(s, [F.Create(b, name), F.Track(name)], Brought(s, b, name, left))
  {
    ReachesTwo(s, F.Create(b, name), F.Track(name));
    assert s.place[name := F.Untracked(b)][name := F.Active(b)] == s.place[name := F.Active(b)];
  }

  /** The create loop, one VM at a time. */
  lemma {:induction false} CreatesRun(s: F.State, b: nat, names: seq<string>, left: nat)
    requires b < |s.scaleUps| && s.scaleUps[b] == F.Creating(left) && |names| <= left && Unused(names, s.born)
    ensures F.Reaches(s, CreateSteps(b, names),
                      WithVMs(s, b, names).(scaleUps := s.scaleUps[b := F.Creating(left - |names|)]))
    decreases |names|
  {
    if |names| == 0 {
      assert WithVMs(s, b, names).(scaleUps := s.scaleUps[b := F.Creating(left)]) == s;
    } else {
      var name, rest := names[0], names[1..];
      var s' := Brought(s, b, name, left);
      var t := WithVMs(s', b, rest).(scaleUps := s'.scaleUps[b := F.Creating(left - |names|)]);
      BroughtUp(s, b, name, left);
      UnusedRest(names, s.born);
      CreatesRun(s', b, rest, left - 1);
      WithOneMore(s, b, names, left);
      ReachesConcat(s, [F.Create(b, name), F.Track(name)], s', CreateSteps(b, rest), t);
    }
  }

  lemma UnusedRest(names: seq<string>, born: set<string>)
    requires names != [] && Unused(names, born)
    ensures Unused(names[1..], born + {names[0]})
  {
    forall n | n in names[1..]
      ensures n !in born + {names[0]}
    {
      var i :| 1 <= i < |names| && names[i] == n;
    }
  }

  lemma WithOneMore(s: F.State, b: nat, names: seq<string>, left: nat)
    requires |names| > 0 && b < |s.scaleUps| && |names| <= left
    ensures var s' := Brought(s, b, names[0], left);
      WithVMs(s', b, names[1..]).(scaleUps := s'.scaleUps[b := F.Creating(left - |names|)])
      == WithVMs(s, b, names).(scaleUps := s.scaleUps[b := F.Creating(left - |names|)])
  {
    ElementsStep(s.vms, names);
    ElementsStep(s.born, names);
    PlacedStep(s.place, b, names);
    assert s.scaleUps[b := F.Creating(left - 1)][b := F.Creating(left - |names|)]
        == s.scaleUps[b := F.Creating(left - |names|)];
  }

  /** The VMs Orchard gains are the ones under the names the bridge tracks, in order. */
  lemma NewVMsCarryNames(call: Call, view: View, cursor: nat)
    ensures NamesIn(NewVMs(call.cfg, view, cursor, NamesBy(call, view))) == NamesBy(call, view)
  {
    AcquiredIsLargest(call.cfg, view, call.count, call.active, call.current, call.max);
  }

  lemma EndsRun(s: F.State, b: nat, names: seq<string>, acquired: nat, s2: F.State)
    requires b < |s.scaleUps| && s.scaleUps[b].Idle? && s.current >= 0 && |names| <= acquired && acquired > 0
    requires s2 == WithVMs(s, b, names).(current := s.current + acquired,
                                         scaleUps := s.scaleUps[b := F.Creating(acquired - |names|)])
    ensures F.Reaches(s2, EndSteps(b, |names|, acquired), WithVMs(s, b, names).(current := s.current + |names|))
  {
    assert s2.scaleUps[b := F.Idle] == s.scaleUps;
    if |names| == acquired {
      ReachesOne(s2, F.Finish(b));
    } else {
      ReachesTwo(s2, F.CreateFails(b), F.ReleaseRest(b));
      assert F.Apply(s2, F.CreateFails(b)).scaleUps[b := F.Idle] == s.scaleUps;
    }
  }

  /** Slots acquired, VMs created under these names, the rest given back. */
  lemma AcquireCreateEnd(s: F.State, b: nat, wanted: nat, names: seq<string>, acquired: nat)
    requires b < |s.scaleUps| && s.scaleUps[b].Idle? && s.current >= 0
    requires acquired == Granted(s.current, s.max, wanted) && |names| <= acquired && Unused(names, s.born)
    ensures F.Reaches(s, [F.Acquire(b, wanted)] + CreateSteps(b, names) + EndSteps(b, |names|, acquired),
                      WithVMs(s, b, names).(current := s.current + |names|))
  {
    var s1 := F.Apply(s, F.Acquire(b, wanted));
    ReachesOne(s, F.Acquire(b, wanted));
    if acquired == 0 {
      assert WithVMs(s, b, names).(current := s.current) == s;
      assert [F.Acquire(b, wanted)] + [] + [] == [F.Acquire(b, wanted)];
    } else {
      CreatesRun(s1, b, names, acquired);
      var s2 := WithVMs(s1, b, names).(scaleUps := s1.scaleUps[b := F.Creating(acquired - |names|)]);
      ReachesConcat(s, [F.Acquire(b, wanted)], s1, CreateSteps(b, names), s2);
      assert s2.scaleUps == s.scaleUps[b := F.Creating(acquired - |names|)];
      EndsRun(s, b, names, acquired, s2);
      ReachesConcat(s, [F.Acquire(b, wanted)] + CreateSteps(b, names), s2, EndSteps(b, |names|, acquired),
                    WithVMs(s, b, names).(current := s.current + |names|));
    }
  }

  /** The slots the code asks TryAcquire for. */
  function Wanted(call: Call, view: View): nat {
    if call.count <= call.active then 0
    else
      var needed: nat := call.count - call.active;
      Min(needed, Room(call.cfg, view, needed))
  }

  lemma AcquiredIsGranted(call: Call, view: View)
    requires call.count > call.active
    ensures AcquiredBy(call, view) == Granted(call.current, call.max, Wanted(call, view))
    ensures |NamesBy(call, view)| <= AcquiredBy(call, view)
  {
  }

  /**
   A scale-up nothing interrupts, fixed-size or AutoSize, complete or cut short
   by a failure, is a run of the machine: acquire, then create and track VM by
   VM, then finish, or fail and give the rest back.
   */
  lemma ScaleUpIsFleetRun(s: F.State, b: nat, call: Call, view: View, wanted: nat, acquired: nat, names: seq<string>)
    requires b < |s.scaleUps| && s.scaleUps[b].Idle? && s.current >= 0
    requires call.current == s.current && call.max == s.max && call.count > call.active
    requires wanted == Wanted(call, view) && acquired == AcquiredBy(call, view) && names == NamesBy(call, view)
    requires Unused(names, s.born)
    ensures F.Reaches(s, [F.Acquire(b, wanted)] + CreateSteps(b, names) + EndSteps(b, |names|, acquired),
                      WithVMs(s, b, names).(current := s.current + |names|))
  {
    AcquiredIsGranted(call, view);
    AcquireCreateEnd(s, b, wanted, names, acquired);
  }

  /** So is a job completion, whether its delete works or its VM is handed to cleanup. */
  lemma CompletionIsFleetRun(s: F.State, vm: string, deleteOk: bool)
    requires vm in s.place && s.place[vm].Active?
    ensures F.Reaches(
      s, [F.Complete(vm)] + (if deleteOk then [F.DeleteOk(vm), F.ReleaseOne(vm)] else [F.DeleteFails(vm), F.Mark(vm)]),
      if deleteOk then s.(vms := s.vms - {vm}, place := s.place - {vm}, current := Released(s.current, 1))
      else s.(place := s.place - {vm}, pending := s.pending + {vm}))
  {
    var s1 := F.Apply(s, F.Complete(vm));
    ReachesOne(s, F.Complete(vm));
    if deleteOk {
      ReachesTwo(s1, F.DeleteOk(vm), F.ReleaseOne(vm));
      var s3 := F.Apply(F.Apply(s1, F.DeleteOk(vm)), F.ReleaseOne(vm));
      assert s3.place == s.place - {vm};
      ReachesConcat(s, [F.Complete(vm)], s1, [F.DeleteOk(vm), F.ReleaseOne(vm)], s3);
    } else {
      ReachesTwo(s1, F.DeleteFails(vm), F.Mark(vm));
      var s3 := F.Apply(F.Apply(s1, F.DeleteFails(vm)), F.Mark(vm));
      assert s3.place == s.place - {vm};
      ReachesConcat(s, [F.Complete(vm)], s1, [F.DeleteFails(vm), F.Mark(vm)], s3);
    }
  }
}
