/**
 The cleanup loop: retrying failed deletes, reaping by status and age, bringing
 the semaphore back to what Orchard shows, and pruning offline worker records.
 Models bridge/cleanup.go.  What Orchard answers is a parameter: the state one
 sweep reads, and the names whose delete call fails in this sweep.
 */
module Cleanups {
  import opened Seqs
  import opened Orchard
  import opened VmName
  import opened Workers
  import opened CapacityModel
  import opened Config

  /** What one sweep reads; `live` are the workers still heartbeating, `all` every record. */
  datatype SweepState = SweepState(vms: seq<VM>, live: seq<Worker>, all: seq<Worker>, fetchedAt: int, freshRead: bool)

  datatype Ages = Ages(maxAge: int, maxPendingAge: int)

  datatype SkipReason = PausedByOperator | StillHasVMs

  /** The ordinary status-and-age rules. */
  predicate ShouldDeleteByStatus(vm: VM, now: int, ages: Ages) {
    match vm.status
    case Stopped => true
    case Failed => true
    case Creating => vm.createdAt.Some? && now - vm.createdAt.value > ages.maxPendingAge
    case _ => vm.createdAt.Some? && now - vm.createdAt.value > ages.maxAge
  }

  // ---- Reaping ----------------------------------------------------------------

  /** How far a sweep's VM loop has come. */
  datatype Reaping = Reaping(pending: set<string>, attempted: seq<string>, deleted: seq<string>, kept: seq<VM>)

  function ReapOne(r: Reaping, vm: VM, now: int, ages: Ages, failing: set<string>): Reaping {
    if !IsManaged(vm.name) then r
    else if vm.name !in r.pending && !ShouldDeleteByStatus(vm, now, ages) then r.(kept := r.kept + [vm])
    else if vm.name in failing then r.(attempted := r.attempted + [vm.name], kept := r.kept + [vm])
    else Reaping(r.pending - {vm.name}, r.attempted + [vm.name], r.deleted + [vm.name], r.kept)
  }

  function Reap(vms: seq<VM>, pending: set<string>, now: int, ages: Ages, failing: set<string>): Reaping {
    if |vms| == 0 then Reaping(pending, [], [], [])
    else ReapOne(Reap(vms[..|vms| - 1], pending, now, ages, failing), vms[|vms| - 1], now, ages, failing)
  }

  function ManagedNames(vms: seq<VM>): set<string> {
    set vm | vm in vms && IsManaged(vm.name) :: vm.name
  }

  function LiveNames(live: seq<Worker>): set<string> {
    set w | w in live :: w.name
  }

  /** A kept VM holds a slot unless it is stranded on a worker that is no longer live. */
  predicate HoldsSlot(vm: VM, live: set<string>) {
    vm.worker == "" || vm.worker in live
  }

  function SlotsHeld(vms: seq<VM>, live: set<string>): nat {
    |Filter((vm: VM) => HoldsSlot(vm, live), vms)|
  }

  // ---- Pruning ----------------------------------------------------------------

  function Hosting(vms: seq<VM>): set<string> {
    set vm | vm in vms && vm.worker != "" :: vm.worker
  }

  function SkipOf(w: Worker, vms: seq<VM>): Option<SkipReason> {
    if w.schedulingPaused then Some(PausedByOperator)
    else if w.name in Hosting(vms) then Some(StillHasVMs)
    else None
  }

  predicate Expired(w: Worker, live: set<string>, now: int, pruneAfter: int) {
    w.name !in live && OfflinePast(w, pruneAfter, now)
  }

  /** The records a prune pass asks Orchard to delete. */
  predicate Prunable(w: Worker, vms: seq<VM>, live: set<string>, now: int, pruneAfter: int) {
    Expired(w, live, now, pruneAfter) && SkipOf(w, vms).None?
  }

  function PruneTargets(all: seq<Worker>, vms: seq<VM>, live: set<string>, now: int, pruneAfter: int): seq<Worker> {
    Filter((w: Worker) => Prunable(w, vms, live, now, pruneAfter), all)
  }

  /** How far a prune pass has come: records tried, skips logged across sweeps, this pass's skips, log lines. */
  datatype Pruning = Pruning(
    tried: seq<string>, logged: map<string, SkipReason>, skips: map<string, SkipReason>, lines: seq<string>)

  function PruneOne(p: Pruning, w: Worker, vms: seq<VM>, live: set<string>, now: int, pruneAfter: int): Pruning {
    if !Expired(w, live, now, pruneAfter) then p
    else match SkipOf(w, vms)
      case None => p.(tried := p.tried + [w.name])
      case Some(reason) =>
        var known := w.name in p.logged && p.logged[w.name] == reason;
        p.(logged := p.logged[w.name := reason], skips := p.skips[w.name := reason],
           lines := if known then p.lines else p.lines + [w.name])
  }

  function PrunePass(all: seq<Worker>, logged: map<string, SkipReason>, vms: seq<VM>, live: set<string>,
                     now: int, pruneAfter: int): Pruning {
    if |all| == 0 then Pruning([], logged, map[], [])
    else PruneOne(PrunePass(all[..|all| - 1], logged, vms, live, now, pruneAfter), all[|all| - 1],
                  vms, live, now, pruneAfter)
  }

  function NamesOf(ws: seq<Worker>): seq<string> {
    seq(|ws|, i requires 0 <= i < |ws| => ws[i].name)
  }

  lemma {:induction false} PassLogsItsSkips(all: seq<Worker>, logged: map<string, SkipReason>, vms: seq<VM>,
                                           live: set<string>, now: int, pruneAfter: int)
    ensures var p := PrunePass(all, logged, vms, live, now, pruneAfter);
      p.logged == logged + p.skips
  {
    if |all| > 0 {
      PassLogsItsSkips(all[..|all| - 1], logged, vms, live, now, pruneAfter);
    }
  }

  lemma NamesOfSnoc(ws: seq<Worker>, w: Worker)
    ensures NamesOf(ws + [w]) == NamesOf(ws) + [w.name]
  {
  }

  lemma ManagedNamesStep(vms: seq<VM>, i: nat)
    requires i < |vms|
    ensures ManagedNames(vms[..i + 1]) == ManagedNames(vms[..i]) + if IsManaged(vms[i].name) then {vms[i].name} else {}
  {
    assert vms[..i + 1] == vms[..i] + [vms[i]];
  }

  lemma SlotsHeldSnoc(vms: seq<VM>, vm: VM, live: set<string>)
    ensures SlotsHeld(vms + [vm], live) == SlotsHeld(vms, live) + if HoldsSlot(vm, live) then 1 else 0
  {
    FilterSnoc((v: VM) => HoldsSlot(v, live), vms, vm);
  }

  class Cleanup {
    const capacity: Capacity
    const ages: Ages
    const pruneAfter: int
    var pendingDeletes: set<string>
    var pruneSkipLogged: map<string, SkipReason>

    constructor (capacity: Capacity, ages: Ages, pruneAfter: int)
      ensures this.capacity == capacity && this.ages == ages && this.pruneAfter == pruneAfter
      ensures pendingDeletes == {} && pruneSkipLogged == map[]
    {
      this.capacity, this.ages, this.pruneAfter := capacity, ages, pruneAfter;
      pendingDeletes, pruneSkipLogged := {}, map[];
    }

    method MarkForDeletion(vmName: string)
      modifies this`pendingDeletes
      ensures pendingDeletes == old(pendingDeletes) + if vmName == "" then {} else {vmName}
    {
      if vmName == "" {
        return;
      }
      pendingDeletes := pendingDeletes + {vmName};
    }

    method RetainPendingDeletes(seen: set<string>)
      modifies this`pendingDeletes
      ensures pendingDeletes == old(pendingDeletes) * seen
    {
      var left := pendingDeletes;
      while left != {}
        invariant left <= old(pendingDeletes)
        invariant pendingDeletes == left + (old(pendingDeletes) - left) * seen
        decreases left
      {
        var name :| name in left;
        if name !in seen {
          pendingDeletes := pendingDeletes - {name};
        }
        left := left - {name};
      }
    }

    /** Evaluates one VM; the callbacks of a successful delete are the returned flag. */
    method ProcessVM(vm: VM, now: int, failing: set<string>) returns (attempted: bool, deleted: bool)
      modifies this`pendingDeletes
      ensures attempted == (vm.name in old(pendingDeletes) || ShouldDeleteByStatus(vm, now, ages))
      ensures deleted == (attempted && vm.name !in failing)
      ensures pendingDeletes == old(pendingDeletes) - if deleted then {vm.name} else {}
    {
      var shouldDelete := true;
      if vm.name !in pendingDeletes {
        shouldDelete := ShouldDeleteByStatus(vm, now, ages);
      }
      if !shouldDelete {
        return false, false;
      }
      if vm.name in failing {
        return true, false;
      }
      pendingDeletes := pendingDeletes - {vm.name};
      return true, true;
    }

    method PushMaxCapacity(workers: seq<Worker>) returns (changed: bool)
      modifies capacity`max
      ensures capacity.max == SlotSum(workers) && changed == (old(capacity.max) != SlotSum(workers))
    {
      var total := 0;
      for i := 0 to |workers|
        invariant total == SlotSum(workers[..i]) && capacity.max == old(capacity.max)
      {
        var w := workers[i];
        assert workers[..i + 1] == workers[..i] + [w];
        SlotSumSnoc(workers[..i], w);
        if w.schedulingPaused {
          continue;
        }
        if TART_VMS in w.resources {
          total := total + AsInt(w.resources[TART_VMS]);
        }
      }
      assert workers[..|workers|] == workers;
      changed := capacity.SetMax(total);
    }

    /** The VM loop of a sweep. */
    method ReapVMs(vms: seq<VM>, live: set<string>, now: int, failing: set<string>)
      returns (seen: set<string>, attempted: seq<string>, deleted: seq<string>, managedCount: nat)
      modifies this`pendingDeletes
      ensures seen == ManagedNames(vms)
      ensures var r := Reap(vms, old(pendingDeletes), now, ages, failing);
        && pendingDeletes == r.pending && attempted == r.attempted && deleted == r.deleted
        && managedCount == SlotsHeld(r.kept, live)
    {
      seen, attempted, deleted, managedCount := {}, [], [], 0;
      ghost var r := Reap(vms[..0], pendingDeletes, now, ages, failing);
      for i := 0 to |vms|
        invariant seen == ManagedNames(vms[..i])
        invariant r == Reap(vms[..i], old(pendingDeletes), now, ages, failing)
        invariant pendingDeletes == r.pending && attempted == r.attempted && deleted == r.deleted
        invariant managedCount == SlotsHeld(r.kept, live)
      {
        var vm := vms[i];
        ManagedNamesStep(vms, i);
        assert vms[..i + 1][..i] == vms[..i];
        ghost var kept := r.kept;
        r := ReapOne(r, vm, now, ages, failing);
        if !IsManaged(vm.name) {
          continue;
        }
        seen := seen + {vm.name};
        var tried, gone := ProcessVM(vm, now, failing);
        if tried {
          attempted := attempted + [vm.name];
        }
        if gone {
          deleted := deleted + [vm.name];
          continue;
        }
        SlotsHeldSnoc(kept, vm, live);
        if vm.worker != "" {
          if vm.worker !in live {
            continue;
          }
        }
        managedCount := managedCount + 1;
      }
      assert vms[..|vms|] == vms;
    }

    /**
     One sweep over a state that could be read.  The names in `deleted` are also
     the ones purged from every bridge's activeVMs.
     */
    method Sweep(st: SweepState, now: int, failing: set<string>, failingWorkers: set<string>)
      returns (attempted: seq<string>, deleted: seq<string>, pruneTried: seq<string>, invalidated: bool)
      modifies this, capacity
      ensures var r := Reap(st.vms, old(pendingDeletes), now, ages, failing);
        var live := LiveNames(st.live);
        && attempted == r.attempted && deleted == r.deleted
        && pendingDeletes == r.pending * ManagedNames(st.vms)
        && capacity.current == SlotsHeld(r.kept, live)
        && capacity.max == SlotSum(st.live)
      ensures st.freshRead && pruneAfter > 0 ==>
        var live := LiveNames(st.live);
        var p := PrunePass(st.all, old(pruneSkipLogged), st.vms, live, st.fetchedAt, pruneAfter);
        pruneTried == p.tried && pruneSkipLogged == p.skips
      ensures !(st.freshRead && pruneAfter > 0) ==> pruneTried == [] && pruneSkipLogged == old(pruneSkipLogged)
      ensures capacity.max == old(capacity.max) <==> SlotSum(st.live) == old(capacity.max)
      ensures invalidated == (deleted != [] || Filter((n: string) => n !in failingWorkers, pruneTried) != [])
    {
      var liveWorkers := LiveNames(st.live);
      var seen, managedCount;
      seen, attempted, deleted, managedCount := ReapVMs(st.vms, liveWorkers, now, failing);
      RetainPendingDeletes(seen);
      invalidated := |deleted| > 0;
      capacity.Reconcile(managedCount);
      var _ := PushMaxCapacity(st.live);
      pruneTried := [];
      if st.freshRead {
        var pruned, lines;
        pruneTried, pruned, lines := PruneOfflineWorkers(st.vms, st.all, liveWorkers, st.fetchedAt, failingWorkers);
        if pruned > 0 {
          invalidated := true;
        }
      }
    }

    method PruneOfflineWorkers(vms: seq<VM>, all: seq<Worker>, live: set<string>, now: int, failing: set<string>)
      returns (tried: seq<string>, pruned: nat, lines: seq<string>)
      modifies this`pruneSkipLogged
      ensures pruneAfter <= 0 ==>
        tried == [] && lines == [] && pruneSkipLogged == old(pruneSkipLogged)
      ensures pruneAfter > 0 ==>
        var p := PrunePass(all, old(pruneSkipLogged), vms, live, now, pruneAfter);
        tried == p.tried && lines == p.lines && pruneSkipLogged == p.skips
      ensures pruned == |Filter((n: string) => n !in failing, tried)|
    {
      tried, pruned, lines := [], 0, [];
      if pruneAfter <= 0 {
        return;
      }
      ghost var p := PrunePass(all[..0], pruneSkipLogged, vms, live, now, pruneAfter);
      var hasVMs := Hosting(vms);
      var stillSkipped: set<string> := {};
      for i := 0 to |all|
        invariant p == PrunePass(all[..i], old(pruneSkipLogged), vms, live, now, pruneAfter)
        invariant tried == p.tried && lines == p.lines && pruneSkipLogged == p.logged && stillSkipped == p.skips.Keys
        invariant pruned == |Filter((n: string) => n !in failing, tried)|
      {
        var w := all[i];
        assert all[..i + 1][..i] == all[..i];
        p := PruneOne(p, w, vms, live, now, pruneAfter);
        if w.name in live {
          continue;
        }
        if w.lastSeen.None? || now - w.lastSeen.value <= pruneAfter {
          continue;
        }
        var skip := if w.schedulingPaused then Some(PausedByOperator)
                    else if w.name in hasVMs then Some(StillHasVMs) else None;
        if skip.Some? {
          stillSkipped := stillSkipped + {w.name};
          if !(w.name in pruneSkipLogged && pruneSkipLogged[w.name] == skip.value) {
            pruneSkipLogged := pruneSkipLogged[w.name := skip.value];
            lines := lines + [w.name];
          }
          continue;
        }
        FilterSnoc((n: string) => n !in failing, tried, w.name);
        tried := tried + [w.name];
        if w.name in failing {
          continue;
        }
        pruned := pruned + 1;
      }
      assert all[..|all|] == all;
      PassLogsItsSkips(all, old(pruneSkipLogged), vms, live, now, pruneAfter);
      DropUnskipped(stillSkipped);
    }

    /** Forgets the workers that are no longer skipped. */
    method DropUnskipped(stillSkipped: set<string>)
      modifies this`pruneSkipLogged
      ensures pruneSkipLogged == old(pruneSkipLogged) - (old(pruneSkipLogged).Keys - stillSkipped)
    {
      var left := pruneSkipLogged.Keys;
      while left != {}
        invariant left <= old(pruneSkipLogged).Keys
        invariant pruneSkipLogged == old(pruneSkipLogged) - ((old(pruneSkipLogged).Keys - left) - stillSkipped)
        decreases left
      {
        var name :| name in left;
        if name !in stillSkipped {
          pruneSkipLogged := pruneSkipLogged - {name};
        }
        left := left - {name};
      }
    }
  }

  // ---- What a sweep achieves --------------------------------------------------

  ghost predicate UniqueVMs(vms: seq<VM>) {
    forall i, j :: 0 <= i < j < |vms| ==> vms[i].name != vms[j].name
  }

  /** The delete of this VM is tried in this sweep. */
  predicate Due(vm: VM, pending: set<string>, now: int, ages: Ages) {
    IsManaged(vm.name) && (vm.name in pending || ShouldDeleteByStatus(vm, now, ages))
  }

  predicate Survives(vm: VM, pending: set<string>, now: int, ages: Ages, failing: set<string>) {
    IsManaged(vm.name) && !(Due(vm, pending, now, ages) && vm.name !in failing)
  }

  /** VM names being unique, the loop judges every VM by the queue as it was when the sweep began. */
  lemma {:induction false} ReapJudgesEach(vms: seq<VM>, pending: set<string>, now: int, ages: Ages,
                                          failing: set<string>)
    requires UniqueVMs(vms)
    ensures var r := Reap(vms, pending, now, ages, failing);
      && r.kept == Filter((vm: VM) => Survives(vm, pending, now, ages, failing), vms)
      && (forall n :: n in r.attempted <==> exists vm :: vm in vms && vm.name == n && Due(vm, pending, now, ages))
      && (forall n :: n in r.deleted <==> n in r.attempted && n !in failing)
      && r.pending == pending - set n | n in r.deleted
  {
    if |vms| > 0 {
      var init, last := vms[..|vms| - 1], vms[|vms| - 1];
      ReapJudgesEach(init, pending, now, ages, failing);
      var before := Reap(init, pending, now, ages, failing);
      assert forall vm :: vm in vms <==> vm in init || vm == last;
      assert last.name !in before.attempted;
      var r := Reap(vms, pending, now, ages, failing);
      assert r == ReapOne(before, last, now, ages, failing);
    }
  }

  /**
   A queued VM is tried in every sweep that lists it; it leaves the queue
   exactly when its delete worked or Orchard no longer lists it.
   */
  lemma QueueAfterSweep(vms: seq<VM>, pending: set<string>, now: int, ages: Ages, failing: set<string>)
    requires UniqueVMs(vms)
    ensures var r := Reap(vms, pending, now, ages, failing);
      var after := r.pending * ManagedNames(vms);
      && (forall n :: n in pending && n in ManagedNames(vms) ==> n in r.attempted)
      && after == pending * ManagedNames(vms) * failing
  {
    ReapJudgesEach(vms, pending, now, ages, failing);
    var r := Reap(vms, pending, now, ages, failing);
    forall n | n in pending && n in ManagedNames(vms)
      ensures n in r.attempted
    {
      var vm :| vm in vms && IsManaged(vm.name) && vm.name == n;
      assert Due(vm, pending, now, ages);
    }
  }

  /** One sweep: what it lists, when, which deletes fail, and what bridges queue before the next one. */
  datatype Round = Round(vms: seq<VM>, now: int, failing: set<string>, marked: set<string>)

  /** The queue after these rounds. */
  function QueueAfter(pending: set<string>, rounds: seq<Round>, ages: Ages): set<string> {
    if |rounds| == 0 then pending
    else
      var k := |rounds| - 1;
      var r := rounds[k];
      Reap(r.vms, QueueAfter(pending, rounds[..k], ages), r.now, ages, r.failing).pending * ManagedNames(r.vms)
      + r.marked
  }

  /** Every round up to now listed this VM and could not delete it. */
  predicate Stuck(name: string, rounds: seq<Round>) {
    forall i :: 0 <= i < |rounds| ==> name in ManagedNames(rounds[i].vms) && name in rounds[i].failing
  }

  lemma QueueStep(pending: set<string>, rounds: seq<Round>, ages: Ages)
    requires rounds != [] && UniqueVMs(rounds[|rounds| - 1].vms)
    ensures var k := |rounds| - 1;
      QueueAfter(pending, rounds, ages)
      == QueueAfter(pending, rounds[..k], ages) * ManagedNames(rounds[k].vms) * rounds[k].failing + rounds[k].marked
  {
    var k := |rounds| - 1;
    QueueAfterSweep(rounds[k].vms, QueueAfter(pending, rounds[..k], ages), rounds[k].now, ages, rounds[k].failing);
  }

  predicate MarkedIn(name: string, rounds: seq<Round>) {
    exists i :: 0 <= i < |rounds| && name in rounds[i].marked
  }

  /** A queued VM stays queued while sweeps list it and cannot delete it, and otherwise only by being queued again. */
  lemma {:induction false} QueuedWhileStuck(pending: set<string>, rounds: seq<Round>, ages: Ages, name: string)
    requires name in pending && forall i :: 0 <= i < |rounds| ==> UniqueVMs(rounds[i].vms)
    ensures Stuck(name, rounds) ==> name in QueueAfter(pending, rounds, ages)
    ensures name in QueueAfter(pending, rounds, ages) ==> Stuck(name, rounds) || MarkedIn(name, rounds)
  {
    if |rounds| > 0 {
      var k := |rounds| - 1;
      QueuedWhileStuck(pending, rounds[..k], ages, name);
      QueueStep(pending, rounds, ages);
      StuckStep(name, rounds);
    }
  }

  lemma StuckStep(name: string, rounds: seq<Round>)
    requires rounds != []
    ensures var k := |rounds| - 1;
      && (Stuck(name, rounds) <==>
            Stuck(name, rounds[..k]) && name in ManagedNames(rounds[k].vms) && name in rounds[k].failing)
      && (MarkedIn(name, rounds[..k]) || name in rounds[k].marked ==> MarkedIn(name, rounds))
  {
    var k := |rounds| - 1;
    assert forall i :: 0 <= i < k ==> rounds[..k][i] == rounds[i];
    if Stuck(name, rounds) {
      assert name in ManagedNames(rounds[k].vms) && name in rounds[k].failing;
    }
    if MarkedIn(name, rounds[..k]) {
      var i :| 0 <= i < k && name in rounds[..k][i].marked;
      assert name in rounds[i].marked;
    }
  }

  /**
   Sweep after sweep, a queued VM is tried in every one that lists it, until its
   delete works or a listing leaves it out.
   */
  lemma RetriedUntilGone(pending: set<string>, rounds: seq<Round>, ages: Ages, name: string, k: nat)
    requires name in pending && k < |rounds| && forall i :: 0 <= i <= k ==> UniqueVMs(rounds[i].vms)
    requires Stuck(name, rounds[..k]) && name in ManagedNames(rounds[k].vms)
    ensures var r := rounds[k];
      name in Reap(r.vms, QueueAfter(pending, rounds[..k], ages), r.now, ages, r.failing).attempted
  {
    QueuedWhileStuck(pending, rounds[..k], ages, name);
    QueueAfterSweep(rounds[k].vms, QueueAfter(pending, rounds[..k], ages), rounds[k].now, ages, rounds[k].failing);
  }

  /** The in-use count after a sweep: surviving managed VMs that are unassigned or on a live worker. */
  lemma SweepCounts(vms: seq<VM>, pending: set<string>, now: int, ages: Ages, failing: set<string>, live: set<string>)
    requires UniqueVMs(vms)
    ensures SlotsHeld(Reap(vms, pending, now, ages, failing).kept, live)
         == |Filter((vm: VM) => Survives(vm, pending, now, ages, failing) && HoldsSlot(vm, live), vms)|
  {
    ReapJudgesEach(vms, pending, now, ages, failing);
    FilterNested((vm: VM) => Survives(vm, pending, now, ages, failing), (vm: VM) => HoldsSlot(vm, live),
                 (vm: VM) => Survives(vm, pending, now, ages, failing) && HoldsSlot(vm, live), vms);
  }

  /**
   A worker that stops heartbeating drops out of the maximum and out of the
   in-use count together: wherever it stands in the listing, and whatever VMs
   are stranded on it, neither number depends on it.
   */
  lemma StaleWorkerIsInvisible(before: seq<Worker>, stale: Worker, after: seq<Worker>,
                               vms: seq<VM>, stranded: seq<VM>, more: seq<VM>,
                               pending: set<string>, now: int, ages: Ages, failing: set<string>,
                               staleAfter: int, at: int)
    requires UniqueNames(before + [stale] + after) && !WorkerLive(stale, staleAfter, at)
    requires UniqueVMs(vms + stranded + more)
    requires forall vm :: vm in stranded ==> vm.worker == stale.name != ""
    ensures Live(before + [stale] + after, staleAfter, at) == Live(before + after, staleAfter, at)
    ensures var live := LiveNames(Live(before + after, staleAfter, at));
      SlotsHeld(Reap(vms + stranded + more, pending, now, ages, failing).kept, live)
      == SlotsHeld(Reap(vms + more, pending, now, ages, failing).kept, live)
  {
    StaleIsFiltered(before, stale, after, staleAfter, at);
    StaleNameNotLive(before, stale, after, staleAfter, at);
    StrandedHoldNothing(vms, stranded, more, pending, now, ages, failing,
                        LiveNames(Live(before + after, staleAfter, at)));
  }

  lemma StaleIsFiltered(before: seq<Worker>, stale: Worker, after: seq<Worker>, staleAfter: int, at: int)
    requires !WorkerLive(stale, staleAfter, at)
    ensures Live(before + [stale] + after, staleAfter, at) == Live(before + after, staleAfter, at)
  {
    var isLive := (w: Worker) => WorkerLive(w, staleAfter, at);
    FilterConcat(isLive, before + [stale], after);
    FilterSnoc(isLive, before, stale);
    FilterConcat(isLive, before, after);
  }

  /** VMs whose worker is not live hold no slot, whatever becomes of them in the sweep. */
  lemma StrandedHoldNothing(vms: seq<VM>, stranded: seq<VM>, more: seq<VM>, pending: set<string>, now: int,
                            ages: Ages, failing: set<string>, live: set<string>)
    requires UniqueVMs(vms + stranded + more)
    requires forall vm :: vm in stranded ==> !HoldsSlot(vm, live)
    ensures SlotsHeld(Reap(vms + stranded + more, pending, now, ages, failing).kept, live)
         == SlotsHeld(Reap(vms + more, pending, now, ages, failing).kept, live)
  {
    var counts := (vm: VM) => Survives(vm, pending, now, ages, failing) && HoldsSlot(vm, live);
    WithoutMiddle(vms, stranded, more);
    SweepCounts(vms + stranded + more, pending, now, ages, failing, live);
    SweepCounts(vms + more, pending, now, ages, failing, live);
    FilterConcat(counts, vms + stranded, more);
    FilterConcat(counts, vms, stranded);
    FilterConcat(counts, vms, more);
    FilterNone(counts, stranded);
  }

  lemma WithoutMiddle(vms: seq<VM>, stranded: seq<VM>, more: seq<VM>)
    requires UniqueVMs(vms + stranded + more)
    ensures UniqueVMs(vms + more)
  {
    var all, some := vms + stranded + more, vms + more;
    forall i, j | 0 <= i < j < |some|
      ensures some[i].name != some[j].name
    {
      var i' := if i < |vms| then i else i + |stranded|;
      var j' := if j < |vms| then j else j + |stranded|;
      assert some[i] == all[i'] && some[j] == all[j'];
    }
  }

  lemma StaleNameNotLive(before: seq<Worker>, stale: Worker, after: seq<Worker>, staleAfter: int, at: int)
    requires UniqueNames(before + [stale] + after)
    ensures stale.name !in LiveNames(Live(before + after, staleAfter, at))
  {
    var all := before + [stale] + after;
    assert all[|before|] == stale;
    forall w | w in Live(before + after, staleAfter, at)
      ensures w.name != stale.name
    {
      LiveMember(before + after, staleAfter, at, w);
      var i :| 0 <= i < |before + after| && (before + after)[i] == w;
      var i' := if i < |before| then i else i + 1;
      assert all[i'] == w;
    }
  }

  /** A prune pass asks Orchard to delete exactly the prunable records, in listing order. */
  lemma {:induction false} PruneTriesTargets(all: seq<Worker>, logged: map<string, SkipReason>, vms: seq<VM>,
                                             live: set<string>, now: int, pruneAfter: int)
    ensures PrunePass(all, logged, vms, live, now, pruneAfter).tried
         == NamesOf(PruneTargets(all, vms, live, now, pruneAfter))
  {
    if |all| > 0 {
      var n := |all| - 1;
      PruneTriesTargets(all[..n], logged, vms, live, now, pruneAfter);
      NamesOfSnoc(PruneTargets(all[..n], vms, live, now, pruneAfter), all[n]);
      if !Prunable(all[n], vms, live, now, pruneAfter) {
        assert PruneTargets(all, vms, live, now, pruneAfter) == PruneTargets(all[..n], vms, live, now, pruneAfter);
      }
    }
  }

  predicate SkippedRecord(w: Worker, vms: seq<VM>, live: set<string>, now: int, pruneAfter: int) {
    Expired(w, live, now, pruneAfter) && SkipOf(w, vms).Some?
  }

  lemma {:induction false} SkipsAreListed(all: seq<Worker>, logged: map<string, SkipReason>, vms: seq<VM>,
                                          live: set<string>, now: int, pruneAfter: int, name: string)
    requires forall w :: w in all ==> w.name != name
    ensures name !in PrunePass(all, logged, vms, live, now, pruneAfter).skips
    ensures name !in PrunePass(all, logged, vms, live, now, pruneAfter).lines
  {
    if |all| > 0 {
      SkipsAreListed(all[..|all| - 1], logged, vms, live, now, pruneAfter, name);
      assert all[|all| - 1] in all;
    }
  }

  lemma LastNameIsNew(all: seq<Worker>)
    requires UniqueNames(all) && all != []
    ensures forall w :: w in all[..|all| - 1] ==> w.name != all[|all| - 1].name
  {
    forall w | w in all[..|all| - 1]
      ensures w.name != all[|all| - 1].name
    {
      var i :| 0 <= i < |all| - 1 && all[i] == w;
      assert NameOf(all[i]) != NameOf(all[|all| - 1]);
    }
  }

  /** After each pass, what is remembered is exactly the skipped workers, each with its reason. */
  lemma {:induction false} PruneRemembersSkips(all: seq<Worker>, logged: map<string, SkipReason>, vms: seq<VM>,
                                               live: set<string>, now: int, pruneAfter: int, w: Worker)
    requires UniqueNames(all) && w in all
    ensures var p := PrunePass(all, logged, vms, live, now, pruneAfter);
      && (w.name in p.skips <==> SkippedRecord(w, vms, live, now, pruneAfter))
      && (w.name in p.skips ==> p.skips[w.name] == SkipOf(w, vms).value)
      && (w.name in p.lines <==> w.name in p.skips && !(w.name in logged && logged[w.name] == p.skips[w.name]))
  {
    var n := |all| - 1;
    LastNameIsNew(all);
    PassLogsItsSkips(all[..n], logged, vms, live, now, pruneAfter);
    if w == all[n] {
      SkipsAreListed(all[..n], logged, vms, live, now, pruneAfter, w.name);
    } else {
      assert w in all[..n];
      PruneRemembersSkips(all[..n], logged, vms, live, now, pruneAfter, w);
    }
  }

  /**
   With an accepted configuration, on a fresh read, the records tried are the
   ones offline past the threshold, unpaused and without VMs: the liveness test
   beside the time test never decides anything.
   */
  lemma PruneIsByTimeAlone(c: Thresholds, vms: seq<VM>, all: seq<Worker>, at: int)
    requires Accepted(c) && PruneAfterDuration(c) > 0 && UniqueNames(all)
    ensures var live := LiveNames(Live(all, StaleInForce(c), at));
      PruneTargets(all, vms, live, at, PruneAfterDuration(c))
      == Filter((w: Worker) =>
                  OfflinePast(w, PruneAfterDuration(c), at) && !w.schedulingPaused && w.name !in Hosting(vms), all)
  {
    var live := LiveNames(Live(all, StaleInForce(c), at));
    var pruneAfter := PruneAfterDuration(c);
    var byTime := (w: Worker) => OfflinePast(w, pruneAfter, at) && !w.schedulingPaused && w.name !in Hosting(vms);
    forall w | w in all
      ensures Prunable(w, vms, live, at, pruneAfter) == byTime(w)
    {
      if w.name in live {
        var x :| x in Live(all, StaleInForce(c), at) && x.name == w.name;
        LiveMember(all, StaleInForce(c), at, x);
        NamesIdentify(all, w, x);
        LiveIsNotOfflinePast(c, w, at);
      }
    }
    FilterAgree((w: Worker) => Prunable(w, vms, live, at, pruneAfter), byTime, all);
  }

  // ---- The sweep, over the records alone ----------------------------------------------

  /** How old a VM may get: the short limit is for one that has not started. */
  function AgeLimit(vm: VM, ages: Ages): int {
    if vm.status == Creating then ages.maxPendingAge else ages.maxAge
  }

  /** A VM is tried exactly when it is listed, managed, and queued, stopped, failed, or past its age limit. */
  lemma AttemptedIff(vms: seq<VM>, pending: set<string>, now: int, ages: Ages, failing: set<string>, name: string)
    requires UniqueVMs(vms)
    ensures name in Reap(vms, pending, now, ages, failing).attempted <==>
      exists i :: 0 <= i < |vms| && vms[i].name == name && IsManaged(name) &&
        (name in pending || vms[i].status == Stopped || vms[i].status == Failed
         || (vms[i].createdAt.Some? && now - vms[i].createdAt.value > AgeLimit(vms[i], ages)))
  {
    ReapJudgesEach(vms, pending, now, ages, failing);
    if exists i :: 0 <= i < |vms| && vms[i].name == name && Due(vms[i], pending, now, ages) {
      var i :| 0 <= i < |vms| && vms[i].name == name && Due(vms[i], pending, now, ages);
      assert vms[i] in vms;
    }
  }

  /** A VM the sweep leaves behind that takes a slot: managed, not deleted, and on a live worker or on none yet. */
  predicate TakesSlot(vm: VM, deleted: seq<string>, live: seq<Worker>) {
    && IsManaged(vm.name) && vm.name !in deleted
    && (vm.worker == "" || exists w :: w in live && w.name == vm.worker)
  }

  /** What a sweep tried and did not fail at is deleted; the in-use count it installs is the slots the rest take. */
  lemma InUseAfterSweep(vms: seq<VM>, pending: set<string>, now: int, ages: Ages, failing: set<string>,
                        live: seq<Worker>)
    requires UniqueVMs(vms)
    ensures var r := Reap(vms, pending, now, ages, failing);
      && (forall n :: n in r.deleted <==> n in r.attempted && n !in failing)
      && SlotsHeld(r.kept, LiveNames(live)) == |Filter((vm: VM) => TakesSlot(vm, r.deleted, live), vms)|
  {
    var r := Reap(vms, pending, now, ages, failing);
    ReapJudgesEach(vms, pending, now, ages, failing);
    SweepCounts(vms, pending, now, ages, failing, LiveNames(live));
    forall vm | vm in vms
      ensures (Survives(vm, pending, now, ages, failing) && HoldsSlot(vm, LiveNames(live)))
           == TakesSlot(vm, r.deleted, live)
    {
      SurvivesIff(vms, pending, now, ages, failing, vm);
    }
    FilterAgree((vm: VM) => Survives(vm, pending, now, ages, failing) && HoldsSlot(vm, LiveNames(live)),
                (vm: VM) => TakesSlot(vm, r.deleted, live), vms);
  }

  lemma SurvivesIff(vms: seq<VM>, pending: set<string>, now: int, ages: Ages, failing: set<string>, vm: VM)
    requires UniqueVMs(vms) && vm in vms
    ensures Survives(vm, pending, now, ages, failing) <==>
      IsManaged(vm.name) && vm.name !in Reap(vms, pending, now, ages, failing).deleted
  {
    ReapJudgesEach(vms, pending, now, ages, failing);
    forall other | other in vms && other.name == vm.name
      ensures other == vm
    {
      var i, j :| 0 <= i < |vms| && 0 <= j < |vms| && vms[i] == vm && vms[j] == other;
    }
  }

  /** A worker's record past the threshold: not live, its last heartbeat longer ago than that. */
  predicate LongOffline(w: Worker, live: set<string>, now: int, pruneAfter: int) {
    w.name !in live && w.lastSeen.Some? && now - w.lastSeen.value > pruneAfter
  }

  /** Some VM, of any status and anyone's, is assigned to this worker. */
  predicate Hosts(w: Worker, vms: seq<VM>) {
    w.name != "" && exists vm :: vm in vms && vm.worker == w.name
  }

  /** A record is tried exactly when it is long offline, unpaused and hosts no VM; else paused is the first reason. */
  lemma PruneIff(all: seq<Worker>, logged: map<string, SkipReason>, vms: seq<VM>, live: set<string>,
                 now: int, pruneAfter: int, w: Worker)
    requires UniqueNames(all) && w in all
    ensures var p := PrunePass(all, logged, vms, live, now, pruneAfter);
      && (w.name in p.tried <==> LongOffline(w, live, now, pruneAfter) && !w.schedulingPaused && !Hosts(w, vms))
      && (w.name in p.skips <==> LongOffline(w, live, now, pruneAfter) && (w.schedulingPaused || Hosts(w, vms)))
      && (w.name in p.skips ==> p.skips[w.name] == if w.schedulingPaused then PausedByOperator else StillHasVMs)
  {
    var targets := PruneTargets(all, vms, live, now, pruneAfter);
    PruneTriesTargets(all, logged, vms, live, now, pruneAfter);
    PruneRemembersSkips(all, logged, vms, live, now, pruneAfter, w);
    FilterMember((x: Worker) => Prunable(x, vms, live, now, pruneAfter), all, w);
    HostsIff(w, vms);
    if w in targets {
      var i :| 0 <= i < |targets| && targets[i] == w;
      assert NamesOf(targets)[i] == w.name;
    }
    if w.name in NamesOf(targets) {
      var i :| 0 <= i < |targets| && NamesOf(targets)[i] == w.name;
      FilterMember((x: Worker) => Prunable(x, vms, live, now, pruneAfter), all, targets[i]);
      NamesIdentify(all, targets[i], w);
    }
  }

  lemma HostsIff(w: Worker, vms: seq<VM>)
    ensures w.name in Hosting(vms) <==> Hosts(w, vms)
  {
  }
}
