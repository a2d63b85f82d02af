/**
 AutoSize eligibility and placement candidates.  Models bridge/autosize.go.

 A worker is pinned by the value of its pin label, not by its Orchard Name.
 The candidates of a scale set are the live, label-matching workers that hold
 their pin alone and are bigger than the reserves; the free ones are those
 whose pin no managed VM holds.
 */
module AutoSize {
  import opened Seqs
  import opened Orchard
  import opened VmName

  const LOGICAL_CORES := "org.cirruslabs.logical-cores"
  const MEMORY_MIB := "org.cirruslabs.memory-mib"
  const PIN_LABEL_KEY := "orchard-gh-bridge/worker-name"
  const DEFAULT_RESERVE_CPU: uint64 := 4
  const DEFAULT_RESERVE_MEMORY_MIB: uint64 := 4096

  datatype Reserves = Reserves(cpu: uint64, memory: uint64)

  datatype Reason = SchedulingPaused | MissingPinLabel | DuplicatePinLabel | MissingResources | BelowReserves

  datatype Size = Size(cpu: uint64, memory: uint64)

  datatype SizeError = ResourcesMissing | TooFewCores | TooLittleMemory

  datatype SizeResult = Sized(size: Size) | Unsizable(error: SizeError)

  /** The reserves in force: zero in the config means the default. */
  function EffectiveReserves(cpu: uint64, memory: uint64): Reserves {
    Reserves(if cpu == 0 then DEFAULT_RESERVE_CPU else cpu,
             if memory == 0 then DEFAULT_RESERVE_MEMORY_MIB else memory)
  }

  function PinIdentity(w: Worker): string {
    LabelOf(w.labels, PIN_LABEL_KEY)
  }

  function Resource(w: Worker, key: string): uint64 {
    if key in w.resources then w.resources[key] else 0
  }

  // ---- Pin counts -------------------------------------------------------------

  /** How many of the workers hold this pin: what the map PinCounts builds has to agree with. */
  function Holders(workers: seq<Worker>, pin: string): nat {
    |Filter((w: Worker) => PinIdentity(w) == pin, workers)|
  }

  function CountOf(counts: map<string, nat>, pin: string): nat {
    if pin in counts then counts[pin] else 0
  }

  ghost predicate CountsPins(counts: map<string, nat>, workers: seq<Worker>) {
    && "" !in counts
    && forall pin :: pin != "" ==> CountOf(counts, pin) == Holders(workers, pin)
  }

  method PinCounts(workers: seq<Worker>) returns (out: map<string, nat>)
    ensures CountsPins(out, workers)
  {
    out := map[];
    for i := 0 to |workers|
      invariant CountsPins(out, workers[..i])
    {
      var pin := PinIdentity(workers[i]);
      HoldersStep(workers, i);
      if pin != "" {
        out := out[pin := CountOf(out, pin) + 1];
      }
      forall p: string | p != ""
        ensures CountOf(out, p) == Holders(workers[..i + 1], p)
      {
        assert Holders(workers[..i + 1], p) == Holders(workers[..i], p) + if pin == p then 1 else 0;
      }
    }
    assert workers[..|workers|] == workers;
  }

  lemma HoldersStep(workers: seq<Worker>, i: nat)
    requires i < |workers|
    ensures forall pin :: Holders(workers[..i + 1], pin)
                          == Holders(workers[..i], pin) + if PinIdentity(workers[i]) == pin then 1 else 0
  {
    forall pin: string
      ensures Holders(workers[..i + 1], pin)
              == Holders(workers[..i], pin) + if PinIdentity(workers[i]) == pin then 1 else 0
    {
      FilterStep((w: Worker) => PinIdentity(w) == pin, workers, i);
    }
  }

  // ---- Eligibility ------------------------------------------------------------

  function ExclusionReason(w: Worker, holders: nat, reserves: Reserves): Option<Reason> {
    if w.schedulingPaused then Some(SchedulingPaused)
    else if PinIdentity(w) == "" then Some(MissingPinLabel)
    else if holders > 1 then Some(DuplicatePinLabel)
    else if LOGICAL_CORES !in w.resources || MEMORY_MIB !in w.resources then Some(MissingResources)
    else if w.resources[LOGICAL_CORES] <= reserves.cpu || w.resources[MEMORY_MIB] <= reserves.memory then
      Some(BelowReserves)
    else None
  }

  /** Why `w` cannot take an AutoSize VM, judged against the live set it belongs to. */
  function Exclusion(w: Worker, workers: seq<Worker>, reserves: Reserves): Option<Reason> {
    ExclusionReason(w, Holders(workers, PinIdentity(w)), reserves)
  }

  predicate IsCandidate(w: Worker, workers: seq<Worker>, labels: Labels, reserves: Reserves) {
    MatchesLabels(w.labels, labels) && Exclusion(w, workers, reserves).None?
  }

  function Candidates(workers: seq<Worker>, labels: Labels, reserves: Reserves): seq<Worker> {
    Filter((w: Worker) => IsCandidate(w, workers, labels, reserves), workers)
  }

  lemma CountedExclusion(w: Worker, workers: seq<Worker>, counts: map<string, nat>, reserves: Reserves)
    requires CountsPins(counts, workers)
    ensures ExclusionReason(w, CountOf(counts, PinIdentity(w)), reserves) == Exclusion(w, workers, reserves)
  {
  }

  method AutoSizeCandidates(workers: seq<Worker>, labels: Labels, reserves: Reserves) returns (out: seq<Worker>)
    ensures out == Candidates(workers, labels, reserves)
  {
    ghost var isCandidate := (w: Worker) => IsCandidate(w, workers, labels, reserves);
    var counts := PinCounts(workers);
    out := [];
    for i := 0 to |workers|
      invariant out == Filter(isCandidate, workers[..i])
    {
      var w := workers[i];
      FilterStep(isCandidate, workers, i);
      CountedExclusion(w, workers, counts, reserves);
      if !MatchesLabels(w.labels, labels) {
        continue;
      }
      if ExclusionReason(w, CountOf(counts, PinIdentity(w)), reserves).Some? {
        continue;
      }
      out := out + [w];
    }
    assert workers[..|workers|] == workers;
  }

  lemma CandidateMember(workers: seq<Worker>, labels: Labels, reserves: Reserves, w: Worker)
    ensures w in Candidates(workers, labels, reserves) <==> w in workers && IsCandidate(w, workers, labels, reserves)
  {
    FilterMember((x: Worker) => IsCandidate(x, workers, labels, reserves), workers, w);
  }

  // ---- Sizing -----------------------------------------------------------------

  function AutoSizedVM(w: Worker, reserves: Reserves): SizeResult {
    var cores, mem := Resource(w, LOGICAL_CORES), Resource(w, MEMORY_MIB);
    if cores == 0 || mem == 0 then Unsizable(ResourcesMissing)
    else if cores <= reserves.cpu then Unsizable(TooFewCores)
    else if mem <= reserves.memory then Unsizable(TooLittleMemory)
    else Sized(Size(cores - reserves.cpu, mem - reserves.memory))
  }

  /** A copy of the scale set's labels with the pin set to the target worker's. */
  function MergePin(labels: Labels, pin: string): Labels {
    labels[PIN_LABEL_KEY := pin]
  }

  /** The live workers Orchard could place a VM with these labels on. */
  function Targets(workers: seq<Worker>, labels: Labels): seq<Worker> {
    Filter((w: Worker) => MatchesLabels(w.labels, labels), workers)
  }

  /**
   Eligibility says exactly what placement needs: an unpaused worker with a pin,
   a size that leaves at least one core and one MiB, and a pinned label set that
   no other live worker answers to.
   */
  lemma EligibleIffPlaceable(workers: seq<Worker>, labels: Labels, reserves: Reserves, w: Worker)
    requires w in workers && MatchesLabels(w.labels, labels)
    ensures IsCandidate(w, workers, labels, reserves) <==>
      && !w.schedulingPaused
      && PinIdentity(w) != ""
      && AutoSizedVM(w, reserves).Sized?
      && Holders(workers, PinIdentity(w)) == 1
  {
    var i :| 0 <= i < |workers| && workers[i] == w;
    CountTwo((x: Worker) => PinIdentity(x) == PinIdentity(w), workers, i, i);
  }

  lemma MergedLabelsSelect(labels: Labels, pin: string, x: Worker)
    requires pin != ""
    ensures MatchesLabels(x.labels, MergePin(labels, pin)) ==> PinIdentity(x) == pin
    ensures MatchesLabels(x.labels, labels) && PinIdentity(x) == pin ==> MatchesLabels(x.labels, MergePin(labels, pin))
  {
    var merged := MergePin(labels, pin);
    assert PIN_LABEL_KEY in merged && merged[PIN_LABEL_KEY] == pin;
  }

  lemma {:induction false} OnlyOne<T>(keep: T -> bool, s: seq<T>, i: nat)
    requires i < |s| && keep(s[i])
    requires forall j :: 0 <= j < |s| && keep(s[j]) ==> j == i
    ensures Filter(keep, s) == [s[i]]
  {
    var n := |s| - 1;
    if i == n {
      FilterNone(keep, s[..n]);
    } else {
      OnlyOne(keep, s[..n], i);
    }
  }

  /** The VM built for a candidate can land on that worker and no other, and fills it up to the reserves. */
  lemma CandidateIsTheOnlyTarget(workers: seq<Worker>, labels: Labels, reserves: Reserves, w: Worker)
    requires w in Candidates(workers, labels, reserves)
    ensures Targets(workers, MergePin(labels, PinIdentity(w))) == [w]
    ensures AutoSizedVM(w, reserves).Sized?
    ensures var size := AutoSizedVM(w, reserves).size;
      && size.cpu >= 1 && size.cpu + reserves.cpu == Resource(w, LOGICAL_CORES)
      && size.memory >= 1 && size.memory + reserves.memory == Resource(w, MEMORY_MIB)
  {
    CandidateMember(workers, labels, reserves, w);
    EligibleIffPlaceable(workers, labels, reserves, w);
    var pin := PinIdentity(w);
    var holds := (x: Worker) => PinIdentity(x) == pin;
    var i :| 0 <= i < |workers| && workers[i] == w;
    CountOne(holds, workers, i);
    var merged := MergePin(labels, pin);
    forall j | 0 <= j < |workers|
      ensures MatchesLabels(workers[j].labels, merged) <==> j == i
    {
      MergedLabelsSelect(labels, pin, workers[j]);
    }
    OnlyOne((x: Worker) => MatchesLabels(x.labels, merged), workers, i);
  }

  /** Candidates at different places never share a pin: one VM each means one VM per pin. */
  lemma CandidatePinsDistinct(workers: seq<Worker>, labels: Labels, reserves: Reserves)
    ensures var cs := Candidates(workers, labels, reserves);
      forall i, j :: 0 <= i < j < |cs| ==> PinIdentity(cs[i]) != PinIdentity(cs[j])
  {
    var keep := (w: Worker) => IsCandidate(w, workers, labels, reserves);
    var cs := Candidates(workers, labels, reserves);
    forall i, j | 0 <= i < j < |cs|
      ensures PinIdentity(cs[i]) != PinIdentity(cs[j])
    {
      if PinIdentity(cs[i]) == PinIdentity(cs[j]) {
        var pin := PinIdentity(cs[i]);
        var holds := (w: Worker) => PinIdentity(w) == pin;
        CountTwo(holds, cs, i, j);
        FilterTwice(keep, holds, workers);
        CandidateMember(workers, labels, reserves, cs[i]);
      }
    }
  }

  // ---- Pins in use ------------------------------------------------------------

  /** Orchard Name to pin, later records winning, as the code's map fills up. */
  function PinByName(workers: seq<Worker>): map<string, string> {
    if |workers| == 0 then map[]
    else
      var w := workers[|workers| - 1];
      PinByName(workers[..|workers| - 1])[w.name := PinIdentity(w)]
  }

  /** The pin this VM keeps busy: its live worker's, else its own pin label; "" when it holds none. */
  function HeldPin(vm: VM, pinByName: map<string, string>): string {
    if !IsManaged(vm.name) || Terminal(vm) then ""
    else if vm.worker != "" && vm.worker in pinByName then pinByName[vm.worker]
    else LabelOf(vm.labels, PIN_LABEL_KEY)
  }

  function HeldPins(vms: seq<VM>, workers: seq<Worker>): set<string> {
    set vm | vm in vms && HeldPin(vm, PinByName(workers)) != "" :: HeldPin(vm, PinByName(workers))
  }

  method ManagedPinIdentities(vms: seq<VM>, workers: seq<Worker>) returns (out: set<string>)
    ensures out == HeldPins(vms, workers)
  {
    var pinByName: map<string, string> := map[];
    for i := 0 to |workers|
      invariant pinByName == PinByName(workers[..i])
    {
      assert workers[..i + 1][..i] == workers[..i];
      pinByName := pinByName[workers[i].name := PinIdentity(workers[i])];
    }
    assert workers[..|workers|] == workers;
    out := {};
    for i := 0 to |vms|
      invariant out == HeldPins(vms[..i], workers)
    {
      var vm := vms[i];
      HeldPinsStep(vms, workers, i);
      if !IsManaged(vm.name) {
        continue;
      }
      if vm.status == Stopped || vm.status == Failed {
        continue;
      }
      if vm.worker != "" {
        if vm.worker in pinByName {
          var pin := pinByName[vm.worker];
          if pin != "" {
            out := out + {pin};
          }
          continue;
        }
      }
      var target := LabelOf(vm.labels, PIN_LABEL_KEY);
      if target != "" {
        out := out + {target};
      }
    }
    assert vms[..|vms|] == vms;
  }

  lemma HeldPinsStep(vms: seq<VM>, workers: seq<Worker>, i: nat)
    requires i < |vms|
    ensures var pin := HeldPin(vms[i], PinByName(workers));
      HeldPins(vms[..i + 1], workers) == HeldPins(vms[..i], workers) + if pin != "" then {pin} else {}
  {
    assert vms[..i + 1] == vms[..i] + [vms[i]];
  }

  lemma {:induction false} PinByNameUnique(workers: seq<Worker>, w: Worker)
    requires UniqueNames(workers) && w in workers
    ensures w.name in PinByName(workers) && PinByName(workers)[w.name] == PinIdentity(w)
  {
    var n := |workers| - 1;
    var last := workers[n];
    if w.name != last.name {
      assert w in workers[..n];
      PinByNameUnique(workers[..n], w);
    } else {
      NamesIdentify(workers, w, last);
    }
  }

  lemma {:induction false} PinByNameKnown(workers: seq<Worker>, name: string)
    requires name in PinByName(workers)
    ensures exists w :: w in workers && w.name == name && PinIdentity(w) == PinByName(workers)[name]
  {
    var n := |workers| - 1;
    if workers[n].name == name {
      assert workers[n] in workers;
    } else {
      PinByNameKnown(workers[..n], name);
      var w :| w in workers[..n] && w.name == name && PinIdentity(w) == PinByName(workers)[name];
      assert w in workers;
    }
  }

  // ---- Free workers -----------------------------------------------------------

  function FreeWorkers(workers: seq<Worker>, vms: seq<VM>, labels: Labels, reserves: Reserves): seq<Worker> {
    Filter((w: Worker) => PinIdentity(w) !in HeldPins(vms, workers), Candidates(workers, labels, reserves))
  }

  /** The in-place filter: the kept workers are moved to the front of the candidates' own storage. */
  method CompactFree(candidates: array<Worker>, inUse: set<string>) returns (kept: nat)
    modifies candidates
    ensures kept <= candidates.Length
    ensures candidates[..kept] == Filter((w: Worker) => PinIdentity(w) !in inUse, old(candidates[..]))
  {
    ghost var was := candidates[..];
    ghost var free := (w: Worker) => PinIdentity(w) !in inUse;
    kept := 0;
    for i := 0 to candidates.Length
      invariant kept <= i
      invariant candidates[..kept] == Filter(free, was[..i])
      invariant forall k :: i <= k < candidates.Length ==> candidates[k] == was[k]
    {
      var w := candidates[i];
      assert w == was[i];
      FilterStep(free, was, i);
      if PinIdentity(w) in inUse {
        continue;
      }
      candidates[kept] := w;
      kept := kept + 1;
    }
    assert was[..|was|] == was;
  }

  method FreeAutoSizeWorkers(workers: seq<Worker>, vms: seq<VM>, labels: Labels, reserves: Reserves)
    returns (free: seq<Worker>)
    ensures free == FreeWorkers(workers, vms, labels, reserves)
  {
    var inUse := ManagedPinIdentities(vms, workers);
    var candidates := AutoSizeCandidates(workers, labels, reserves);
    var storage := new Worker[|candidates|](i requires 0 <= i < |candidates| => candidates[i]);
    assert storage[..] == candidates;
    var kept := CompactFree(storage, inUse);
    free := storage[..kept];
    FilterAgree((w: Worker) => PinIdentity(w) !in inUse,
                (w: Worker) => PinIdentity(w) !in HeldPins(vms, workers), candidates);
  }

  lemma FreeMember(workers: seq<Worker>, vms: seq<VM>, labels: Labels, reserves: Reserves, w: Worker)
    ensures w in FreeWorkers(workers, vms, labels, reserves) <==>
      w in Candidates(workers, labels, reserves) && PinIdentity(w) !in HeldPins(vms, workers)
  {
    FilterMember((x: Worker) => PinIdentity(x) !in HeldPins(vms, workers), Candidates(workers, labels, reserves), w);
  }

  lemma FreePinsDistinct(workers: seq<Worker>, vms: seq<VM>, labels: Labels, reserves: Reserves)
    ensures var free := FreeWorkers(workers, vms, labels, reserves);
      forall i, j :: 0 <= i < j < |free| ==> PinIdentity(free[i]) != PinIdentity(free[j])
  {
    var keep := (w: Worker) => PinIdentity(w) !in HeldPins(vms, workers);
    CandidatePinsDistinct(workers, labels, reserves);
    FilterKeepsDistinct(keep, (w: Worker) => PinIdentity(w), Candidates(workers, labels, reserves));
    assert FreeWorkers(workers, vms, labels, reserves) == Filter(keep, Candidates(workers, labels, reserves));
  }

  // ---- Who is a candidate, who is free, over the records alone --------------------

  /** No worker at another place carries this one's pin. */
  lemma SoleHolderIff(workers: seq<Worker>, i: nat)
    requires i < |workers|
    ensures Holders(workers, PinIdentity(workers[i])) == 1 <==>
      forall j :: 0 <= j < |workers| && j != i ==>
        LabelOf(workers[j].labels, PIN_LABEL_KEY) != LabelOf(workers[i].labels, PIN_LABEL_KEY)
  {
    var holds := (w: Worker) => PinIdentity(w) == PinIdentity(workers[i]);
    if Holders(workers, PinIdentity(workers[i])) == 1 {
      CountOne(holds, workers, i);
    } else if forall j :: 0 <= j < |workers| && j != i ==>
        LabelOf(workers[j].labels, PIN_LABEL_KEY) != LabelOf(workers[i].labels, PIN_LABEL_KEY) {
      OnlyOne(holds, workers, i);
      assert false;
    }
  }

  /** The reason reported is the first that applies, in this order. */
  lemma ReasonIff(workers: seq<Worker>, i: nat, reserves: Reserves)
    requires i < |workers|
    ensures var w := workers[i];
      var pin, reason := LabelOf(w.labels, PIN_LABEL_KEY), Exclusion(w, workers, reserves);
      var shared := exists j :: 0 <= j < |workers| && j != i && LabelOf(workers[j].labels, PIN_LABEL_KEY) == pin;
      var known := LOGICAL_CORES in w.resources && MEMORY_MIB in w.resources;
      && (w.schedulingPaused ==> reason == Some(SchedulingPaused))
      && (!w.schedulingPaused && pin == "" ==> reason == Some(MissingPinLabel))
      && (!w.schedulingPaused && pin != "" && shared ==> reason == Some(DuplicatePinLabel))
      && (!w.schedulingPaused && pin != "" && !shared && !known ==> reason == Some(MissingResources))
      && (!w.schedulingPaused && pin != "" && !shared && known ==>
            reason == if w.resources[LOGICAL_CORES] > reserves.cpu && w.resources[MEMORY_MIB] > reserves.memory
                      then None else Some(BelowReserves))
  {
    SoleHolderIff(workers, i);
    CountTwo((x: Worker) => PinIdentity(x) == PinIdentity(workers[i]), workers, i, i);
  }

  /** The records that keep worker `w` of a live list with unique Names busy. */
  predicate KeepsBusy(vm: VM, w: Worker, workers: seq<Worker>) {
    && IsManaged(vm.name) && vm.status != Stopped && vm.status != Failed
    && if vm.worker != "" && exists x :: x in workers && x.name == vm.worker then vm.worker == w.name
       else LabelOf(vm.labels, PIN_LABEL_KEY) == LabelOf(w.labels, PIN_LABEL_KEY)
  }

  /**
   A candidate is free exactly when no unfinished managed VM, of whatever scale
   set and size, runs on it, nor carries its pin while on no live worker.
   */
  lemma FreeIff(workers: seq<Worker>, vms: seq<VM>, labels: Labels, reserves: Reserves, w: Worker)
    requires UniqueNames(workers) && w in Candidates(workers, labels, reserves)
    ensures w in FreeWorkers(workers, vms, labels, reserves) <==> forall vm :: vm in vms ==> !KeepsBusy(vm, w, workers)
  {
    FreeMember(workers, vms, labels, reserves, w);
    CandidateMember(workers, labels, reserves, w);
    EligibleIffPlaceable(workers, labels, reserves, w);
    forall vm | vm in vms
      ensures HeldPin(vm, PinByName(workers)) == PinIdentity(w) <==> KeepsBusy(vm, w, workers)
    {
      HoldsIff(workers, vm, w);
    }
  }

  lemma HoldsIff(workers: seq<Worker>, vm: VM, w: Worker)
    requires UniqueNames(workers) && w in workers && PinIdentity(w) != "" && Holders(workers, PinIdentity(w)) == 1
    ensures HeldPin(vm, PinByName(workers)) == PinIdentity(w) <==> KeepsBusy(vm, w, workers)
  {
    if vm.worker != "" && exists x :: x in workers && x.name == vm.worker {
      var x :| x in workers && x.name == vm.worker;
      PinByNameUnique(workers, x);
      if PinIdentity(x) == PinIdentity(w) {
        var i :| 0 <= i < |workers| && workers[i] == w;
        CountOne((y: Worker) => PinIdentity(y) == PinIdentity(w), workers, i);
      }
      if x.name == w.name {
        NamesIdentify(workers, x, w);
      }
    } else if vm.worker in PinByName(workers) {
      PinByNameKnown(workers, vm.worker);
    }
  }

  /** A pinned VM still asks for every label of its scale set, and for the pin instead of any pin label of its own. */
  lemma MergedLabelsIff(labels: Labels, pin: string, x: Worker)
    ensures MatchesLabels(x.labels, MergePin(labels, pin)) <==>
      && PinIdentity(x) == pin
      && forall k :: k in labels && k != PIN_LABEL_KEY ==> LabelOf(x.labels, k) == labels[k]
  {
    var merged := MergePin(labels, pin);
    assert PIN_LABEL_KEY in merged && merged[PIN_LABEL_KEY] == pin;
    assert forall k :: k in labels && k != PIN_LABEL_KEY ==> k in merged && merged[k] == labels[k];
  }

  /** Reserves are always in force: what is configured, or the defaults. */
  lemma ReservesInForce(cpu: uint64, memory: uint64)
    ensures var r := EffectiveReserves(cpu, memory);
      && r.cpu > 0 && r.memory > 0 && EffectiveReserves(r.cpu, r.memory) == r
      && (r.cpu == cpu || (cpu == 0 && r.cpu == 4)) && (r.memory == memory || (memory == 0 && r.memory == 4096))
  {
  }
}
