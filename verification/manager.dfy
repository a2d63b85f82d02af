/**
 The share of the worker pool each scale set advertises to GitHub, and why it
 agrees with what AutoSize placement can deliver.  Models
 manager/manager.go:449-557.
 */
module Managers {
  import opened Seqs
  import opened Orchard
  import opened VmName
  import opened Workers
  import opened AutoSize
  import opened Snapshots
  import opened Bridges

  datatype Handle = Handle(cfg: Settings, staticMaxRunners: int)

  // ---- Which VMs occupy a pool --------------------------------------------------

  function FirstNamed(workers: seq<Worker>, name: string): Option<Worker> {
    if |workers| == 0 then None
    else if workers[0].name == name then Some(workers[0])
    else FirstNamed(workers[1..], name)
  }

  predicate SomeTarget(workers: seq<Worker>, vmLabels: Labels, labels: Labels) {
    exists w :: w in workers && MatchesLabels(w.labels, vmLabels) && MatchesLabels(w.labels, labels)
  }

  /** A VM on a live worker is judged by that worker; any other by where its own labels could put it. */
  predicate Consumes(vm: VM, workers: seq<Worker>, labels: Labels) {
    if vm.worker != "" && FirstNamed(workers, vm.worker).Some? then
      MatchesLabels(FirstNamed(workers, vm.worker).value.labels, labels)
    else
      SomeTarget(workers, vm.labels, labels)
  }

  method VMConsumesLabeledWorker(vm: VM, workers: seq<Worker>, labels: Labels) returns (consumes: bool)
    ensures consumes == Consumes(vm, workers, labels)
  {
    if vm.worker != "" {
      for i := 0 to |workers|
        invariant FirstNamed(workers[i..], vm.worker) == FirstNamed(workers, vm.worker)
      {
        assert workers[i..][0] == workers[i] && workers[i..][1..] == workers[i + 1..];
        if workers[i].name != vm.worker {
          continue;
        }
        return MatchesLabels(workers[i].labels, labels);
      }
    }
    for i := 0 to |workers|
      invariant forall j :: 0 <= j < i ==>
        !(MatchesLabels(workers[j].labels, vm.labels) && MatchesLabels(workers[j].labels, labels))
    {
      if MatchesLabels(workers[i].labels, vm.labels) && MatchesLabels(workers[i].labels, labels) {
        assert workers[i] in workers;
        return true;
      }
    }
    return false;
  }

  /** An active VM named for this scale set that occupies the pool. */
  predicate Occupies(vm: VM, scaleSet: string, workers: seq<Worker>, labels: Labels) {
    AttributedTo(vm.name, scaleSet) && !Terminal(vm) && Consumes(vm, workers, labels)
  }

  /** How many of one scale set's VMs occupy the pool. */
  function Load(snap: Snapshot, scaleSet: string, labels: Labels): nat {
    |Filter((vm: VM) => Occupies(vm, scaleSet, snap.workers, labels), snap.vms)|
  }

  method CountLoad(snap: Snapshot, scaleSet: string, labels: Labels) returns (n: nat)
    ensures n == Load(snap, scaleSet, labels)
  {
    var vms := ManagedVMsForScaleSet(snap, scaleSet);
    ghost var counted := (vm: VM) => !Terminal(vm) && Consumes(vm, snap.workers, labels);
    n := 0;
    for i := 0 to |vms|
      invariant n == |Filter(counted, vms[..i])|
    {
      FilterStep(counted, vms, i);
      if vms[i].status == Stopped || vms[i].status == Failed {
        continue;
      }
      var consumes := VMConsumesLabeledWorker(vms[i], snap.workers, labels);
      if consumes {
        n := n + 1;
      }
    }
    assert vms[..|vms|] == vms;
    FilterNested((vm: VM) => AttributedTo(vm.name, scaleSet), counted,
                 (vm: VM) => Occupies(vm, scaleSet, snap.workers, labels), snap.vms);
  }

  // ---- Shares -------------------------------------------------------------------

  /** One VM per eligible worker with AutoSize on, the slot sum otherwise. */
  function PoolCapacity(cfg: Settings, workers: seq<Worker>): int {
    if cfg.autoSize then |Candidates(workers, cfg.labels, EffectiveOf(cfg))| else CapacityFor(workers, cfg.labels)
  }

  /** What each scale set keeps busy in a pool. */
  function Loads(handles: seq<Handle>, snap: Snapshot, labels: Labels): seq<nat> {
    seq(|handles|, i requires 0 <= i < |handles| => Load(snap, handles[i].cfg.scaleSet, labels))
  }

  /** What every scale set but the `h`-th keeps busy. */
  function OthersLoad(handles: seq<Handle>, h: nat, snap: Snapshot, labels: Labels): nat
    requires h < |handles|
  {
    Sum(Loads(handles, snap, labels)[h := 0])
  }

  /** The share pushed to the `h`-th scale set's listener. */
  function Share(handles: seq<Handle>, h: nat, snap: Snapshot): nat
    requires h < |handles|
  {
    var cfg := handles[h].cfg;
    var free := PoolCapacity(cfg, snap.workers) - OthersLoad(handles, h, snap, cfg.labels);
    if free < 0 then 0 else free
  }

  class Manager {
    var handles: seq<Handle>
    /** The last maxRunners each listener was given. */
    var maxRunners: seq<int>

    ghost predicate Valid()
      reads this
    {
      |maxRunners| == |handles|
    }

    constructor (handles: seq<Handle>, initial: seq<int>)
      requires |handles| == |initial|
      ensures Valid() && this.handles == handles && maxRunners == initial
    {
      this.handles, maxRunners := handles, initial;
    }

    method CountOthers(h: nat, snap: Snapshot, labels: Labels) returns (othersActive: nat)
      requires h < |handles|
      ensures othersActive == OthersLoad(handles, h, snap, labels)
    {
      othersActive := 0;
      ghost var loads: seq<nat> := Loads(handles, snap, labels)[h := 0];
      for other := 0 to |handles|
        invariant othersActive == Sum(loads[..other])
      {
        SumStep(loads, other);
        if other == h {
          continue;
        }
        var load := CountLoad(snap, handles[other].cfg.scaleSet, labels);
        othersActive := othersActive + load;
      }
      assert loads[..|handles|] == loads;
    }

    method CountCapacity(cfg: Settings, workers: seq<Worker>) returns (n: int)
      ensures n == PoolCapacity(cfg, workers)
    {
      if cfg.autoSize {
        var candidates := AutoSizeCandidates(workers, cfg.labels, EffectiveOf(cfg));
        return |candidates|;
      }
      n := CapacityForLabels(workers, cfg.labels);
    }

    /** Without a snapshot every listener keeps what it had; a static maximum is never overridden. */
    method RecomputeScaleSetShares(view: Option<Snapshot>)
      requires Valid()
      modifies this`maxRunners
      ensures Valid()
      ensures forall h :: 0 <= h < |handles| ==>
        maxRunners[h] == if view.None? || handles[h].staticMaxRunners > 0 then old(maxRunners)[h]
                         else Share(handles, h, view.value)
    {
      if view.None? {
        return;
      }
      var snap := view.value;
      for h := 0 to |handles|
        invariant |maxRunners| == |handles|
        invariant forall j :: h <= j < |handles| ==> maxRunners[j] == old(maxRunners)[j]
        invariant forall j :: 0 <= j < h ==>
          maxRunners[j] == if handles[j].staticMaxRunners > 0 then old(maxRunners)[j] else Share(handles, j, snap)
      {
        if handles[h].staticMaxRunners > 0 {
          continue;
        }
        var labels := handles[h].cfg.labels;
        var workerCap := CountCapacity(handles[h].cfg, snap.workers);
        var othersActive := CountOthers(h, snap, labels);
        var share := workerCap - othersActive;
        if share < 0 {
          share := 0;
        }
        maxRunners := maxRunners[h := share];
      }
    }
  }

  // ---- The share is placeable ---------------------------------------------------

  predicate Active(vm: VM) {
    IsManaged(vm.name) && !Terminal(vm)
  }

  /** Attributed to one of the first `n` scale sets. */
  predicate AttributedBefore(vm: VM, handles: seq<Handle>, n: nat)
    requires n <= |handles|
  {
    exists h :: 0 <= h < n && AttributedTo(vm.name, handles[h].cfg.scaleSet)
  }

  /** Every active managed VM belongs to some registered scale set. */
  ghost predicate AllAttributed(vms: seq<VM>, handles: seq<Handle>) {
    forall vm :: vm in vms && Active(vm) ==> AttributedBefore(vm, handles, |handles|)
  }

  predicate HoldsPinOf(w: Worker, vm: VM) {
    PinIdentity(w) != "" && PinIdentity(w) == LabelOf(vm.labels, PIN_LABEL_KEY)
  }

  predicate OnLiveWorker(vm: VM, workers: seq<Worker>) {
    vm.worker != "" && FirstNamed(workers, vm.worker).Some?
  }

  /** A live worker that holds the pin of an active VM not on a live worker answers to all of that VM's labels. */
  ghost predicate LabelsFollowPins(snap: Snapshot) {
    forall vm, w :: vm in snap.vms && w in snap.workers && HoldsPinOf(w, vm) ==>
      Active(vm) && !OnLiveWorker(vm, snap.workers) ==> MatchesLabels(w.labels, vm.labels)
  }

  lemma {:induction false} FirstNamedFinds(workers: seq<Worker>, name: string)
    ensures FirstNamed(workers, name).Some? ==>
      FirstNamed(workers, name).value in workers && FirstNamed(workers, name).value.name == name
    ensures FirstNamed(workers, name).None? ==> forall w :: w in workers ==> w.name != name
  {
    if |workers| > 0 && workers[0].name != name {
      FirstNamedFinds(workers[1..], name);
      assert workers == [workers[0]] + workers[1..];
    }
  }

  /** A candidate's pin is its own: a live worker with the same pin is the same worker. */
  lemma CandidateHoldsPinAlone(workers: seq<Worker>, labels: Labels, reserves: Reserves, c: Worker, w: Worker)
    requires c in Candidates(workers, labels, reserves) && w in workers && PinIdentity(w) == PinIdentity(c)
    ensures w == c
  {
    CandidateMember(workers, labels, reserves, c);
    EligibleIffPlaceable(workers, labels, reserves, c);
    var i :| 0 <= i < |workers| && workers[i] == c;
    CountOne((x: Worker) => PinIdentity(x) == PinIdentity(c), workers, i);
  }

  /**
   A VM that keeps a candidate's pin busy occupies the candidate's pool exactly
   when it is on a live worker, or the candidate answers to its labels.
   */
  lemma HolderConsumesIff(snap: Snapshot, labels: Labels, reserves: Reserves, c: Worker, vm: VM)
    requires UniqueNames(snap.workers)
    requires c in Candidates(snap.workers, labels, reserves) && vm in snap.vms
    requires HeldPin(vm, PinByName(snap.workers)) == PinIdentity(c)
    ensures Active(vm) && (OnLiveWorker(vm, snap.workers) || HoldsPinOf(c, vm))
    ensures Consumes(vm, snap.workers, labels) <==>
      OnLiveWorker(vm, snap.workers) || MatchesLabels(c.labels, vm.labels)
  {
    CandidateMember(snap.workers, labels, reserves, c);
    EligibleIffPlaceable(snap.workers, labels, reserves, c);
    FirstNamedFinds(snap.workers, vm.worker);
    if OnLiveWorker(vm, snap.workers) {
      var w := FirstNamed(snap.workers, vm.worker).value;
      PinByNameUnique(snap.workers, w);
      CandidateHoldsPinAlone(snap.workers, labels, reserves, c, w);
    } else {
      if vm.worker in PinByName(snap.workers) {
        PinByNameKnown(snap.workers, vm.worker);
      }
      OffLiveTarget(snap, labels, reserves, c, vm);
    }
  }

  /** Only the candidate itself can be where such a VM would go. */
  lemma OffLiveTarget(snap: Snapshot, labels: Labels, reserves: Reserves, c: Worker, vm: VM)
    requires c in Candidates(snap.workers, labels, reserves) && HoldsPinOf(c, vm)
    ensures SomeTarget(snap.workers, vm.labels, labels) <==> MatchesLabels(c.labels, vm.labels)
  {
    CandidateMember(snap.workers, labels, reserves, c);
    if SomeTarget(snap.workers, vm.labels, labels) {
      var w :| w in snap.workers && MatchesLabels(w.labels, vm.labels) && MatchesLabels(w.labels, labels);
      assert PIN_LABEL_KEY in vm.labels;
      CandidateHoldsPinAlone(snap.workers, labels, reserves, c, w);
    }
  }

  predicate Busy(vm: VM, snap: Snapshot, labels: Labels) {
    Active(vm) && Consumes(vm, snap.workers, labels)
  }

  /** The share recompute counts this VM, and it keeps this pin busy. */
  predicate PaysFor(vm: VM, snap: Snapshot, labels: Labels, pin: string) {
    HeldPin(vm, PinByName(snap.workers)) == pin && Consumes(vm, snap.workers, labels)
  }

  predicate PaidFor(w: Worker, snap: Snapshot, labels: Labels) {
    exists i :: 0 <= i < |snap.vms| && PaysFor(snap.vms[i], snap, labels, PinIdentity(w))
  }

  /** Candidates taken and candidates free make up the capacity. */
  function Taken(cfg: Settings, snap: Snapshot): seq<Worker> {
    Filter((w: Worker) => PinIdentity(w) in HeldPins(snap.vms, snap.workers),
           Candidates(snap.workers, cfg.labels, EffectiveOf(cfg)))
  }

  /** Candidates held back for VMs none of which the share recompute counts. */
  function Hidden(cfg: Settings, snap: Snapshot): seq<Worker> {
    Filter((w: Worker) => !PaidFor(w, snap, cfg.labels), Taken(cfg, snap))
  }

  function Paid(cfg: Settings, snap: Snapshot): seq<Worker> {
    Filter((w: Worker) => PaidFor(w, snap, cfg.labels), Taken(cfg, snap))
  }

  lemma TakenAndFree(cfg: Settings, snap: Snapshot)
    ensures |Candidates(snap.workers, cfg.labels, EffectiveOf(cfg))|
         == |Paid(cfg, snap)| + |Hidden(cfg, snap)| + |FreeIn(cfg, snap)|
  {
    FilterAll((w: Worker) => true, Taken(cfg, snap));
    FilterSplit((w: Worker) => true, (w: Worker) => PaidFor(w, snap, cfg.labels),
                (w: Worker) => !PaidFor(w, snap, cfg.labels), Taken(cfg, snap));
    var candidates := Candidates(snap.workers, cfg.labels, EffectiveOf(cfg));
    FilterAll((w: Worker) => true, candidates);
    FilterSplit((w: Worker) => true,
                (w: Worker) => PinIdentity(w) in HeldPins(snap.vms, snap.workers),
                (w: Worker) => PinIdentity(w) !in HeldPins(snap.vms, snap.workers), candidates);
  }

  lemma TakenMember(cfg: Settings, snap: Snapshot, w: Worker)
    ensures w in Taken(cfg, snap) <==>
      && w in Candidates(snap.workers, cfg.labels, EffectiveOf(cfg))
      && PinIdentity(w) in HeldPins(snap.vms, snap.workers)
    ensures w in Hidden(cfg, snap) <==> w in Taken(cfg, snap) && !PaidFor(w, snap, cfg.labels)
    ensures w in Paid(cfg, snap) <==> w in Taken(cfg, snap) && PaidFor(w, snap, cfg.labels)
  {
    var candidates := Candidates(snap.workers, cfg.labels, EffectiveOf(cfg));
    FilterMember((x: Worker) => PinIdentity(x) in HeldPins(snap.vms, snap.workers), candidates, w);
    FilterMember((x: Worker) => !PaidFor(x, snap, cfg.labels), Taken(cfg, snap), w);
    FilterMember((x: Worker) => PaidFor(x, snap, cfg.labels), Taken(cfg, snap), w);
  }

  /**
   A machine is hidden exactly when all that keeps its pin busy is VMs off the
   live list that ask for some other label the machine does not have.
   */
  lemma HiddenIff(cfg: Settings, snap: Snapshot, w: Worker)
    requires UniqueNames(snap.workers) && w in Taken(cfg, snap)
    ensures w in Hidden(cfg, snap) <==>
      forall vm :: vm in snap.vms && HeldPin(vm, PinByName(snap.workers)) == PinIdentity(w) ==>
        !OnLiveWorker(vm, snap.workers) && !MatchesLabels(w.labels, vm.labels)
  {
    TakenMember(cfg, snap, w);
    forall i | 0 <= i < |snap.vms| && HeldPin(snap.vms[i], PinByName(snap.workers)) == PinIdentity(w)
      ensures PaysFor(snap.vms[i], snap, cfg.labels, PinIdentity(w)) <==>
        OnLiveWorker(snap.vms[i], snap.workers) || MatchesLabels(w.labels, snap.vms[i].labels)
    {
      HolderConsumesIff(snap, cfg.labels, EffectiveOf(cfg), w, snap.vms[i]);
    }
    if w in Hidden(cfg, snap) {
      forall vm | vm in snap.vms && HeldPin(vm, PinByName(snap.workers)) == PinIdentity(w)
        ensures !OnLiveWorker(vm, snap.workers) && !MatchesLabels(w.labels, vm.labels)
      {
        var i :| 0 <= i < |snap.vms| && snap.vms[i] == vm;
        assert !PaysFor(snap.vms[i], snap, cfg.labels, PinIdentity(w));
      }
    }
  }

  /** While labels follow pins, no machine is hidden. */
  lemma NothingHidden(cfg: Settings, snap: Snapshot)
    requires UniqueNames(snap.workers) && LabelsFollowPins(snap)
    ensures Hidden(cfg, snap) == []
  {
    forall w | w in Taken(cfg, snap)
      ensures PaidFor(w, snap, cfg.labels)
    {
      TakenMember(cfg, snap, w);
      CandidateMember(snap.workers, cfg.labels, EffectiveOf(cfg), w);
      var vm :| vm in snap.vms && HeldPin(vm, PinByName(snap.workers)) == PinIdentity(w);
      HolderConsumesIff(snap, cfg.labels, EffectiveOf(cfg), w, vm);
      var i :| 0 <= i < |snap.vms| && snap.vms[i] == vm;
      assert PaysFor(snap.vms[i], snap, cfg.labels, PinIdentity(w));
    }
    FilterNone((w: Worker) => !PaidFor(w, snap, cfg.labels), Taken(cfg, snap));
  }

  predicate PayerAt(i: nat, snap: Snapshot, labels: Labels, pin: string) {
    i < |snap.vms| && HeldPin(snap.vms[i], PinByName(snap.workers)) == pin && Busy(snap.vms[i], snap, labels)
  }

  ghost function PayerOf(snap: Snapshot, labels: Labels, pin: string): nat
    requires exists i :: PayerAt(i, snap, labels, pin)
  {
    var i :| PayerAt(i, snap, labels, pin);
    i
  }

  lemma Payer(cfg: Settings, snap: Snapshot, w: Worker)
    requires UniqueNames(snap.workers) && w in Paid(cfg, snap)
    ensures exists i :: PayerAt(i, snap, cfg.labels, PinIdentity(w))
  {
    TakenMember(cfg, snap, w);
    var i :| 0 <= i < |snap.vms| && PaysFor(snap.vms[i], snap, cfg.labels, PinIdentity(w));
    HolderConsumesIff(snap, cfg.labels, EffectiveOf(cfg), w, snap.vms[i]);
    assert PayerAt(i, snap, cfg.labels, PinIdentity(w));
  }

  /** Every machine held back and not hidden is paid for by a VM of its own that the share recompute counts. */
  lemma PaidIsBusy(cfg: Settings, snap: Snapshot)
    requires UniqueNames(snap.workers)
    ensures |Paid(cfg, snap)| <= |Filter((vm: VM) => Busy(vm, snap, cfg.labels), snap.vms)|
  {
    var pin := (w: Worker) => PinIdentity(w);
    CandidatePinsDistinct(snap.workers, cfg.labels, EffectiveOf(cfg));
    var held := (w: Worker) => PinIdentity(w) in HeldPins(snap.vms, snap.workers);
    FilterKeepsDistinct(held, pin, Candidates(snap.workers, cfg.labels, EffectiveOf(cfg)));
    assert Taken(cfg, snap) == Filter(held, Candidates(snap.workers, cfg.labels, EffectiveOf(cfg)));
    var isPaid := (w: Worker) => PaidFor(w, snap, cfg.labels);
    FilterKeepsDistinct(isPaid, pin, Taken(cfg, snap));
    var paid := Paid(cfg, snap);
    assert paid == Filter(isPaid, Taken(cfg, snap));
    forall w | w in paid
      ensures exists i :: PayerAt(i, snap, cfg.labels, PinIdentity(w))
    {
      Payer(cfg, snap, w);
    }
    PinsPaid(snap, cfg.labels, paid);
  }

  /** Distinct pins are paid for by distinct VMs, since a VM holds one pin. */
  lemma PinsPaid(snap: Snapshot, labels: Labels, paid: seq<Worker>)
    requires forall w :: w in paid ==> exists i :: PayerAt(i, snap, labels, PinIdentity(w))
    requires forall i, j :: 0 <= i < j < |paid| ==> PinIdentity(paid[i]) != PinIdentity(paid[j])
    ensures |paid| <= |Filter((vm: VM) => Busy(vm, snap, labels), snap.vms)|
  {
    var pinByName := PinByName(snap.workers);
    var pins := seq(|paid|, i requires 0 <= i < |paid| => PinIdentity(paid[i]));
    var at := seq(|paid|, i requires 0 <= i < |paid| => PayerOf(snap, labels, PinIdentity(paid[i])));
    forall i | 0 <= i < |at|
      ensures PayerAt(at[i], snap, labels, pins[i])
    {
      assert paid[i] in paid;
    }
    DistinctKeysBound((vm: VM) => Busy(vm, snap, labels), (vm: VM) => HeldPin(vm, pinByName), snap.vms, pins, at);
  }

  lemma AttributedStep(vm: VM, handles: seq<Handle>, n: nat)
    requires 0 < n <= |handles| && AttributedBefore(vm, handles, n)
    ensures AttributedBefore(vm, handles, n - 1) || AttributedTo(vm.name, handles[n - 1].cfg.scaleSet)
  {
  }

  /** Counted scale set by scale set, no attributed VM is missed. */
  lemma {:induction false} LoadsCover(handles: seq<Handle>, n: nat, snap: Snapshot, labels: Labels)
    requires n <= |handles|
    ensures |Filter((vm: VM) => AttributedBefore(vm, handles, n) && Busy(vm, snap, labels), snap.vms)|
         <= Sum(Loads(handles, snap, labels)[..n])
  {
    if n == 0 {
      FilterNone((vm: VM) => AttributedBefore(vm, handles, n) && Busy(vm, snap, labels), snap.vms);
    } else {
      LoadsCover(handles, n - 1, snap, labels);
      var loads := Loads(handles, snap, labels);
      SumStep(loads, n - 1);
      var scaleSet := handles[n - 1].cfg.scaleSet;
      forall vm | vm in snap.vms && AttributedBefore(vm, handles, n) && Busy(vm, snap, labels)
        ensures (AttributedBefore(vm, handles, n - 1) && Busy(vm, snap, labels))
             || Occupies(vm, scaleSet, snap.workers, labels)
      {
        AttributedStep(vm, handles, n);
      }
      assert loads[n - 1] == Load(snap, scaleSet, labels);
      FilterUnion((vm: VM) => AttributedBefore(vm, handles, n) && Busy(vm, snap, labels),
                  (vm: VM) => AttributedBefore(vm, handles, n - 1) && Busy(vm, snap, labels),
                  (vm: VM) => Occupies(vm, scaleSet, snap.workers, labels), snap.vms);
    }
  }

  /** How many VMs the recompute counts in a pool, scale set by scale set, less the machines paid for. */
  function Spare(handles: seq<Handle>, cfg: Settings, snap: Snapshot): int {
    Sum(Loads(handles, snap, cfg.labels)) - |Paid(cfg, snap)|
  }

  /** Every machine paid for is paid for by a counted VM of its own. */
  lemma PaidIsCounted(handles: seq<Handle>, cfg: Settings, snap: Snapshot)
    requires UniqueNames(snap.workers) && AllAttributed(snap.vms, handles)
    ensures Spare(handles, cfg, snap) >= 0
  {
    PaidIsBusy(cfg, snap);
    LoadsCover(handles, |handles|, snap, cfg.labels);
    FilterAgree((vm: VM) => AttributedBefore(vm, handles, |handles|) && Busy(vm, snap, cfg.labels),
                (vm: VM) => Busy(vm, snap, cfg.labels), snap.vms);
    assert Loads(handles, snap, cfg.labels)[..|handles|] == Loads(handles, snap, cfg.labels);
  }

  /**
   What an AutoSize scale set advertises beyond its own load is what placement
   finds free, plus the hidden machines, less the spare count, down to nothing
   advertised at all.
   */
  lemma AdvertisedExactly(handles: seq<Handle>, h: nat, snap: Snapshot)
    requires h < |handles| && handles[h].cfg.autoSize
    ensures var cfg := handles[h].cfg;
      var own := Load(snap, cfg.scaleSet, cfg.labels);
      var room := |FreeIn(cfg, snap)| + |Hidden(cfg, snap)| - Spare(handles, cfg, snap);
      Share(handles, h, snap) - own == if room < 0 - own then 0 - own else room
  {
    var cfg := handles[h].cfg;
    TakenAndFree(cfg, snap);
    SumUpdate(Loads(handles, snap, cfg.labels), h, 0);
  }

  /** It can all be placed exactly when the hidden machines do not outnumber the spare count. */
  lemma PlaceableIff(handles: seq<Handle>, h: nat, snap: Snapshot)
    requires h < |handles| && handles[h].cfg.autoSize
    ensures var cfg := handles[h].cfg;
      Share(handles, h, snap) - Load(snap, cfg.scaleSet, cfg.labels) <= |FreeIn(cfg, snap)|
      <==> |Hidden(cfg, snap)| <= Spare(handles, cfg, snap)
  {
    AdvertisedExactly(handles, h, snap);
  }

  /** It never oversells by more than the hidden machines. */
  lemma AdvertisedBound(handles: seq<Handle>, h: nat, snap: Snapshot)
    requires h < |handles| && handles[h].cfg.autoSize
    requires UniqueNames(snap.workers) && AllAttributed(snap.vms, handles)
    ensures var cfg := handles[h].cfg;
      Share(handles, h, snap) - Load(snap, cfg.scaleSet, cfg.labels) <= |FreeIn(cfg, snap)| + |Hidden(cfg, snap)|
  {
    AdvertisedExactly(handles, h, snap);
    PaidIsCounted(handles, handles[h].cfg, snap);
  }

  /**
   While labels follow pins it can all be placed: GitHub never sends the scale
   set more new jobs than there are free machines.
   */
  lemma AdvertisedIsPlaceable(handles: seq<Handle>, h: nat, snap: Snapshot)
    requires h < |handles| && handles[h].cfg.autoSize
    requires UniqueNames(snap.workers) && AllAttributed(snap.vms, handles) && LabelsFollowPins(snap)
    ensures var cfg := handles[h].cfg;
      Share(handles, h, snap) - Load(snap, cfg.scaleSet, cfg.labels) <= |FreeIn(cfg, snap)|
  {
    NothingHidden(handles[h].cfg, snap);
    PaidIsCounted(handles, handles[h].cfg, snap);
    PlaceableIff(handles, h, snap);
  }

  // ---- Why the labels must follow the pins ----------------------------------------

  /**
   Scale set `b` made `vm` for worker `w`, which has since lost one of the
   labels of `b` and still answers to those of `a`.
   */
  ghost predicate Relabelled(w: Worker, vm: VM, a: Settings, b: Settings) {
    && a.autoSize && MatchesLabels(w.labels, a.labels)
    && !w.schedulingPaused && PinIdentity(w) != "" && AutoSizedVM(w, EffectiveOf(a)).Sized?
    && b.autoSize && vm.labels == MergePin(b.labels, PinIdentity(w)) && !MatchesLabels(w.labels, vm.labels)
    && AttributedTo(vm.name, b.scaleSet) && Active(vm) && vm.worker == ""
  }

  lemma RelabelledTakes(w: Worker, vm: VM, a: Settings, b: Settings)
    requires Relabelled(w, vm, a, b)
    ensures Candidates([w], a.labels, EffectiveOf(a)) == [w]
    ensures FreeWorkers([w], [vm], a.labels, EffectiveOf(a)) == []
  {
    var ws := [w];
    OnlyOne((x: Worker) => PinIdentity(x) == PinIdentity(w), ws, 0);
    EligibleIffPlaceable(ws, a.labels, EffectiveOf(a), ws[0]);
    OnlyOne((x: Worker) => IsCandidate(x, ws, a.labels, EffectiveOf(a)), ws, 0);
    assert vm in [vm] && HeldPin(vm, PinByName(ws)) == PinIdentity(w);
    FilterNone((x: Worker) => PinIdentity(x) !in HeldPins([vm], ws), ws);
  }

  /** Then `a` advertises a machine that placement holds back: the bound with one hidden machine is reached. */
  lemma RelabelledWorkerOversells(w: Worker, vm: VM, a: Settings, b: Settings, handles: seq<Handle>, snap: Snapshot)
    requires Relabelled(w, vm, a, b)
    requires handles == [Handle(a, 0), Handle(b, 0)] && snap == Snapshot([vm], [w], [w], 0)
    ensures UniqueNames(snap.workers) && AllAttributed(snap.vms, handles) && !LabelsFollowPins(snap)
    ensures Share(handles, 0, snap) == 1 && Load(snap, a.scaleSet, a.labels) == 0
    ensures FreeIn(a, snap) == [] && Hidden(a, snap) == [w]
  {
    RelabelledTakes(w, vm, a, b);
    RelabelledHides(w, vm, a, b);
    NoLoads(handles, snap, a.labels);
    OneCandidate(handles, snap, w);
    RelabelledSnapshot(w, vm, a, b, handles, snap);
  }

  lemma OneCandidate(handles: seq<Handle>, snap: Snapshot, w: Worker)
    requires handles != [] && handles[0].cfg.autoSize
    requires Candidates(snap.workers, handles[0].cfg.labels, EffectiveOf(handles[0].cfg)) == [w]
    requires OthersLoad(handles, 0, snap, handles[0].cfg.labels) == 0
    ensures Share(handles, 0, snap) == 1
  {
  }

  lemma RelabelledSnapshot(w: Worker, vm: VM, a: Settings, b: Settings, handles: seq<Handle>, snap: Snapshot)
    requires Relabelled(w, vm, a, b)
    requires handles == [Handle(a, 0), Handle(b, 0)] && snap == Snapshot([vm], [w], [w], 0)
    ensures UniqueNames(snap.workers) && AllAttributed(snap.vms, handles) && !LabelsFollowPins(snap)
  {
    assert AttributedBefore(vm, handles, 2) by {
      assert handles[1].cfg == b;
    }
    assert HoldsPinOf(w, vm) && w in snap.workers && vm in snap.vms && !OnLiveWorker(vm, snap.workers);
  }

  lemma RelabelledHides(w: Worker, vm: VM, a: Settings, b: Settings)
    requires Relabelled(w, vm, a, b)
    ensures var snap := Snapshot([vm], [w], [w], 0);
      !Consumes(vm, [w], a.labels) && !OnLiveWorker(vm, [w]) && Hidden(a, snap) == [w]
  {
    var snap := Snapshot([vm], [w], [w], 0);
    RelabelledTakes(w, vm, a, b);
    assert vm in snap.vms && HeldPin(vm, PinByName([w])) == PinIdentity(w);
    OnlyOne((x: Worker) => PinIdentity(x) in HeldPins(snap.vms, snap.workers), [w], 0);
    OnlyOne((x: Worker) => !PaidFor(x, snap, a.labels), [w], 0);
  }

  lemma NoLoads(handles: seq<Handle>, snap: Snapshot, labels: Labels)
    requires |handles| == 2 && forall vm :: vm in snap.vms ==> !Consumes(vm, snap.workers, labels)
    ensures Load(snap, handles[0].cfg.scaleSet, labels) == 0 && OthersLoad(handles, 0, snap, labels) == 0
  {
    forall h | 0 <= h < 2
      ensures Load(snap, handles[h].cfg.scaleSet, labels) == 0
    {
      FilterNone((v: VM) => Occupies(v, handles[h].cfg.scaleSet, snap.workers, labels), snap.vms);
    }
    var others := Loads(handles, snap, labels)[0 := 0];
    assert others == [0, 0];
    assert Sum([0]) == Sum([0][..0]) + 0 == 0;
    assert [0, 0][..1] == [0];
  }

  // ---- What one more VM adds to a load ------------------------------------------------

  /**
   The VM counts for the scale set in this pool: its own, unfinished, and on a
   live worker of the pool, or on none and with some live worker that answers to
   both its labels and the pool's.
   */
  predicate AddsToLoad(vm: VM, scaleSet: string, workers: seq<Worker>, labels: Labels) {
    && AttributedTo(vm.name, scaleSet) && vm.status != Stopped && vm.status != Failed
    && if vm.worker != "" && exists w :: w in workers && w.name == vm.worker then
         exists w :: w in workers && w.name == vm.worker && MatchesLabels(w.labels, labels)
       else
         exists w :: w in workers && MatchesLabels(w.labels, vm.labels) && MatchesLabels(w.labels, labels)
  }

  lemma OccupiesIff(vm: VM, scaleSet: string, workers: seq<Worker>, labels: Labels)
    requires UniqueNames(workers)
    ensures Occupies(vm, scaleSet, workers, labels) <==> AddsToLoad(vm, scaleSet, workers, labels)
  {
    FirstNamedFinds(workers, vm.worker);
    if FirstNamed(workers, vm.worker).Some? {
      var first := FirstNamed(workers, vm.worker).value;
      forall w | w in workers && w.name == vm.worker
        ensures w == first
      {
        NamesIdentify(workers, w, first);
      }
    }
  }

  /** Whatever VM is added, a scale set's load in a pool grows by one if it counts and not at all if it does not. */
  lemma LoadGrows(snap: Snapshot, vm: VM, scaleSet: string, labels: Labels)
    requires UniqueNames(snap.workers)
    ensures Load(snap.(vms := []), scaleSet, labels) == 0
    ensures Load(snap.(vms := snap.vms + [vm]), scaleSet, labels)
         == Load(snap, scaleSet, labels) + if AddsToLoad(vm, scaleSet, snap.workers, labels) then 1 else 0
  {
    OccupiesIff(vm, scaleSet, snap.workers, labels);
    FilterSnoc((v: VM) => Occupies(v, scaleSet, snap.workers, labels), snap.vms, vm);
  }

  /** On a live worker only that worker's labels decide. */
  lemma AssignedAdds(vm: VM, scaleSet: string, workers: seq<Worker>, labels: Labels, w: Worker)
    requires UniqueNames(workers) && w in workers && vm.worker == w.name != ""
    requires AttributedTo(vm.name, scaleSet) && vm.status != Stopped && vm.status != Failed
    ensures AddsToLoad(vm, scaleSet, workers, labels) <==> MatchesLabels(w.labels, labels)
  {
    if AddsToLoad(vm, scaleSet, workers, labels) {
      var x :| x in workers && x.name == vm.worker && MatchesLabels(x.labels, labels);
      NamesIdentify(workers, x, w);
    }
  }

  /** A fixed-size share is the pool's slots less every other scale set's load, and never below nothing. */
  lemma FixedShareExactly(handles: seq<Handle>, h: nat, snap: Snapshot)
    requires h < |handles| && !handles[h].cfg.autoSize
    ensures var cfg := handles[h].cfg;
      var room := CapacityFor(snap.workers, cfg.labels)
                  - (Sum(Loads(handles, snap, cfg.labels)) - Load(snap, cfg.scaleSet, cfg.labels));
      Share(handles, h, snap) == if room < 0 then 0 else room
  {
    SumUpdate(Loads(handles, snap, handles[h].cfg.labels), h, 0);
  }
}
