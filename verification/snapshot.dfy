/**
 The snapshot the bridges scale from, and how many VMs count against a label
 pool.  Models bridge/stateview.go:18-36, 147-220 and bridge/bridge.go:356-366.
 */
module Snapshots {
  import opened Seqs
  import opened Orchard
  import opened VmName
  import opened Workers

  /** `workers` holds only those live when the lists were read. */
  datatype Snapshot = Snapshot(vms: seq<VM>, workers: seq<Worker>, allWorkers: seq<Worker>, fetchedAt: int)

  function NewSnapshot(vms: seq<VM>, workers: seq<Worker>, at: int, staleAfter: int): Snapshot {
    Snapshot(vms, Live(workers, staleAfter, at), workers, at)
  }

  /** The Name index; later records win. */
  function ByName(workers: seq<Worker>): map<string, Worker> {
    if |workers| == 0 then map[]
    else
      var w := workers[|workers| - 1];
      ByName(workers[..|workers| - 1])[w.name := w]
  }

  method IndexByName(workers: seq<Worker>) returns (index: map<string, Worker>)
    ensures index == ByName(workers)
  {
    index := map[];
    for i := 0 to |workers|
      invariant index == ByName(workers[..i])
    {
      assert workers[..i + 1][..i] == workers[..i];
      index := index[workers[i].name := workers[i]];
    }
    assert workers[..|workers|] == workers;
  }

  lemma {:induction false} ByNameIsMember(workers: seq<Worker>, name: string)
    requires name in ByName(workers)
    ensures ByName(workers)[name] in workers && ByName(workers)[name].name == name
  {
    var n := |workers| - 1;
    if workers[n].name != name {
      ByNameIsMember(workers[..n], name);
    }
  }

  lemma {:induction false} ByNameFinds(workers: seq<Worker>, w: Worker)
    requires UniqueNames(workers) && w in workers
    ensures w.name in ByName(workers) && ByName(workers)[w.name] == w
  {
    var n := |workers| - 1;
    if w.name == workers[n].name {
      NamesIdentify(workers, w, workers[n]);
    } else {
      assert w in workers[..n];
      ByNameFinds(workers[..n], w);
    }
  }

  // ---- VMs of a scale set, VMs of a pool --------------------------------------

  function ForScaleSet(vms: seq<VM>, scaleSet: string): seq<VM> {
    Filter((vm: VM) => AttributedTo(vm.name, scaleSet), vms)
  }

  method ManagedVMsForScaleSet(snap: Snapshot, scaleSet: string) returns (out: seq<VM>)
    ensures out == ForScaleSet(snap.vms, scaleSet)
  {
    ghost var keep := (vm: VM) => AttributedTo(vm.name, scaleSet);
    var prefix := PrefixFor(scaleSet);
    out := [];
    for i := 0 to |snap.vms|
      invariant out == Filter(keep, snap.vms[..i])
    {
      var vm := snap.vms[i];
      FilterStep(keep, snap.vms, i);
      if !(prefix <= vm.name) {
        continue;
      }
      var remainder := vm.name[|prefix|..];
      if '-' in remainder {
        continue;
      }
      out := out + [vm];
    }
    assert snap.vms[..|snap.vms|] == snap.vms;
  }

  /** A known worker is trusted; only an unassigned VM is judged by its own labels. */
  predicate CountsInPool(vm: VM, index: map<string, Worker>, labels: Labels) {
    && IsManaged(vm.name)
    && if vm.worker != "" then vm.worker in index && MatchesLabels(index[vm.worker].labels, labels)
       else MatchesLabels(vm.labels, labels)
  }

  function MatchingPool(snap: Snapshot, labels: Labels): seq<VM> {
    Filter((vm: VM) => CountsInPool(vm, ByName(snap.workers), labels), snap.vms)
  }

  method ManagedVMsMatchingLabels(snap: Snapshot, labels: Labels) returns (out: seq<VM>)
    ensures out == MatchingPool(snap, labels)
  {
    ghost var keep := (vm: VM) => CountsInPool(vm, ByName(snap.workers), labels);
    var index := IndexByName(snap.workers);
    out := [];
    for i := 0 to |snap.vms|
      invariant out == Filter(keep, snap.vms[..i])
    {
      var vm := snap.vms[i];
      FilterStep(keep, snap.vms, i);
      if !IsManaged(vm.name) {
        continue;
      }
      if vm.worker != "" {
        if vm.worker in index && MatchesLabels(index[vm.worker].labels, labels) {
          out := out + [vm];
        }
        continue;
      }
      if MatchesLabels(vm.labels, labels) {
        out := out + [vm];
      }
    }
    assert snap.vms[..|snap.vms|] == snap.vms;
  }

  function ActiveCount(vms: seq<VM>): nat {
    |Filter((vm: VM) => !Terminal(vm), vms)|
  }

  method CountActiveVMs(vms: seq<VM>) returns (n: nat)
    ensures n == ActiveCount(vms)
  {
    ghost var active := (vm: VM) => !Terminal(vm);
    n := 0;
    for i := 0 to |vms|
      invariant n == |Filter(active, vms[..i])|
    {
      FilterStep(active, vms, i);
      if vms[i].status == Stopped || vms[i].status == Failed {
        continue;
      }
      n := n + 1;
    }
    assert vms[..|vms|] == vms;
  }

  /** The pool's load: what fixed-size admission subtracts from the slot sum. */
  function PoolLoad(snap: Snapshot, labels: Labels): nat {
    ActiveCount(MatchingPool(snap, labels))
  }

  // ---- Fixed-size admission ---------------------------------------------------

  /** A VM no worker has yet, created with the pool's own labels. */
  predicate FreshInPool(vm: VM, labels: Labels) {
    IsManaged(vm.name) && !Terminal(vm) && vm.worker == "" && vm.labels == labels
  }

  /** Each VM a fixed-size scale-up creates is counted by its own labels at once. */
  lemma NewVMsAreCounted(snap: Snapshot, labels: Labels, batch: seq<VM>)
    requires forall vm :: vm in batch ==> FreshInPool(vm, labels)
    ensures PoolLoad(snap.(vms := snap.vms + batch), labels) == PoolLoad(snap, labels) + |batch|
  {
    var keep := (vm: VM) => CountsInPool(vm, ByName(snap.workers), labels);
    var active := (vm: VM) => !Terminal(vm);
    FilterConcat(keep, snap.vms, batch);
    FilterAll(keep, batch);
    FilterConcat(active, Filter(keep, snap.vms), batch);
    FilterAll(active, batch);
    assert MatchingPool(snap.(vms := snap.vms + batch), labels) == Filter(keep, snap.vms) + batch;
  }

  // ---- What one more VM adds to a pool -----------------------------------------------

  /** The VM counts: unfinished, managed, and on a live worker of the pool, or on none and asking for its labels. */
  predicate AddsLoad(vm: VM, workers: seq<Worker>, labels: Labels) {
    && IsManaged(vm.name) && vm.status != Stopped && vm.status != Failed
    && if vm.worker == "" then MatchesLabels(vm.labels, labels)
       else exists w :: w in workers && w.name == vm.worker && MatchesLabels(w.labels, labels)
  }

  lemma CountsIff(snap: Snapshot, vm: VM, labels: Labels)
    requires UniqueNames(snap.workers)
    ensures CountsInPool(vm, ByName(snap.workers), labels) && !Terminal(vm) <==> AddsLoad(vm, snap.workers, labels)
  {
    if vm.worker in ByName(snap.workers) {
      ByNameIsMember(snap.workers, vm.worker);
    }
    if exists w :: w in snap.workers && w.name == vm.worker && MatchesLabels(w.labels, labels) {
      var w :| w in snap.workers && w.name == vm.worker && MatchesLabels(w.labels, labels);
      ByNameFinds(snap.workers, w);
    }
  }

  /** Whatever VM is added, the pool's load grows by one if it counts and not at all if it does not. */
  lemma PoolLoadGrows(snap: Snapshot, vm: VM, labels: Labels)
    requires UniqueNames(snap.workers)
    ensures PoolLoad(snap.(vms := []), labels) == 0
    ensures PoolLoad(snap.(vms := snap.vms + [vm]), labels)
         == PoolLoad(snap, labels) + if AddsLoad(vm, snap.workers, labels) then 1 else 0
  {
    var keep := (v: VM) => CountsInPool(v, ByName(snap.workers), labels);
    var active := (v: VM) => !Terminal(v);
    CountsIff(snap, vm, labels);
    FilterSnoc(keep, snap.vms, vm);
    FilterSnoc(active, Filter(keep, snap.vms), vm);
    assert MatchingPool(snap.(vms := snap.vms + [vm]), labels)
        == Filter(keep, snap.vms) + if keep(vm) then [vm] else [];
    assert !keep(vm) ==> Filter(keep, snap.vms) + [] == Filter(keep, snap.vms);
  }

  /** On a live worker only that worker's labels decide, and on one that is not live it never counts. */
  lemma AssignedLoad(snap: Snapshot, vm: VM, labels: Labels)
    requires UniqueNames(snap.workers) && vm.worker != ""
    requires IsManaged(vm.name) && vm.status != Stopped && vm.status != Failed
    ensures forall w :: w in snap.workers && w.name == vm.worker ==>
      (AddsLoad(vm, snap.workers, labels) <==> MatchesLabels(w.labels, labels))
    ensures (forall w :: w in snap.workers ==> w.name != vm.worker) ==> !AddsLoad(vm, snap.workers, labels)
  {
    forall w | w in snap.workers && w.name == vm.worker
      ensures AddsLoad(vm, snap.workers, labels) <==> MatchesLabels(w.labels, labels)
    {
      if AddsLoad(vm, snap.workers, labels) {
        var x :| x in snap.workers && x.name == vm.worker && MatchesLabels(x.labels, labels);
        NamesIdentify(snap.workers, x, w);
      }
    }
  }

  /** A snapshot holds what was listed, and of the workers apart those live when it was read. */
  lemma SnapshotHolds(vms: seq<VM>, workers: seq<Worker>, at: int, staleAfter: int, w: Worker)
    requires staleAfter > 0
    ensures var snap := NewSnapshot(vms, workers, at, staleAfter);
      && snap.vms == vms && snap.allWorkers == workers && snap.fetchedAt == at
      && (w in snap.workers <==> w in workers && (w.lastSeen.None? || at - w.lastSeen.value <= staleAfter))
  {
    LiveMember(workers, staleAfter, at, w);
  }
}
