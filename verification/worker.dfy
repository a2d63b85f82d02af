/**
 Which workers exist: the heartbeat filter every capacity and placement
 decision reads through.  Models bridge/worker.go and the slot sums of
 bridge/cleanup.go.
 */
module Workers {
  import opened Seqs
  import opened Orchard

  /** A zero LastSeen, or a non-positive threshold, fails open. */
  predicate WorkerLive(w: Worker, staleAfter: int, now: int) {
    staleAfter <= 0 || w.lastSeen.None? || now - w.lastSeen.value <= staleAfter
  }

  function Live(workers: seq<Worker>, staleAfter: int, now: int): seq<Worker> {
    Filter((w: Worker) => WorkerLive(w, staleAfter, now), workers)
  }

  method LiveWorkers(workers: seq<Worker>, staleAfter: int, now: int) returns (out: seq<Worker>)
    ensures out == Live(workers, staleAfter, now)
  {
    ghost var live := (w: Worker) => WorkerLive(w, staleAfter, now);
    out := [];
    for i := 0 to |workers|
      invariant out == Filter(live, workers[..i])
    {
      FilterStep(live, workers, i);
      if !WorkerLive(workers[i], staleAfter, now) {
        continue;
      }
      out := out + [workers[i]];
    }
    assert workers[..|workers|] == workers;
  }

  lemma LiveMember(workers: seq<Worker>, staleAfter: int, now: int, w: Worker)
    ensures w in Live(workers, staleAfter, now) <==> w in workers && WorkerLive(w, staleAfter, now)
  {
    FilterMember((x: Worker) => WorkerLive(x, staleAfter, now), workers, w);
  }

  /** Filtering keeps Names unique, so a Name read from a snapshot still identifies one worker. */
  lemma LiveKeepsUniqueNames(workers: seq<Worker>, staleAfter: int, now: int)
    requires UniqueNames(workers)
    ensures UniqueNames(Live(workers, staleAfter, now))
  {
    var live := (w: Worker) => WorkerLive(w, staleAfter, now);
    FilterKeepsDistinct(live, (w: Worker) => NameOf(w), workers);
    assert Live(workers, staleAfter, now) == Filter(live, workers);
  }

  // ---- Slots ------------------------------------------------------------------

  const TART_VMS := "org.cirruslabs.tart-vms"

  function Slots(w: Worker): int {
    if !w.schedulingPaused && TART_VMS in w.resources then AsInt(w.resources[TART_VMS]) else 0
  }

  function SlotSum(workers: seq<Worker>): int {
    if |workers| == 0 then 0 else SlotSum(workers[..|workers| - 1]) + Slots(workers[|workers| - 1])
  }

  /** The slots of label-matching workers; `SlotSum` over everything is the global maximum. */
  function CapacityFor(workers: seq<Worker>, labels: Labels): int {
    SlotSum(Filter((w: Worker) => MatchesLabels(w.labels, labels), workers))
  }

  method CapacityForLabels(workers: seq<Worker>, labels: Labels) returns (total: int)
    ensures total == CapacityFor(workers, labels)
  {
    ghost var matches := (w: Worker) => MatchesLabels(w.labels, labels);
    total := 0;
    for i := 0 to |workers|
      invariant total == SlotSum(Filter(matches, workers[..i]))
    {
      var w := workers[i];
      FilterStep(matches, workers, i);
      SlotSumSnoc(Filter(matches, workers[..i]), w);
      assert !matches(w) ==> Filter(matches, workers[..i + 1]) == Filter(matches, workers[..i]);
      if w.schedulingPaused {
        continue;
      }
      if !MatchesLabels(w.labels, labels) {
        continue;
      }
      if TART_VMS in w.resources {
        total := total + AsInt(w.resources[TART_VMS]);
      }
    }
    assert workers[..|workers|] == workers;
  }

  lemma SlotSumSnoc(workers: seq<Worker>, w: Worker)
    ensures SlotSum(workers + [w]) == SlotSum(workers) + Slots(w)
  {
    assert (workers + [w])[..|workers|] == workers;
  }

  /** A fleet of one machine with any other number of slots makes a sweep replace a static maximum. */
  lemma StaticMaxIsLost(max: int, w: Worker)
    requires Slots(w) != max
    ensures SlotSum([w]) != max
  {
    SlotSumSnoc([], w);
    assert [] + [w] == [w];
  }

  /** A worker is live up to and including the threshold after its last heartbeat, and for good without one. */
  lemma LiveUntil(workers: seq<Worker>, staleAfter: int, now: int, w: Worker)
    requires w in workers
    ensures staleAfter > 0 && w.lastSeen.Some? ==>
      (w in Live(workers, staleAfter, now) <==> now <= w.lastSeen.value + staleAfter)
    ensures staleAfter <= 0 || w.lastSeen.None? ==> w in Live(workers, staleAfter, now)
  {
    LiveMember(workers, staleAfter, now, w);
  }

  /** What one more worker adds to a pool: its slots, if it is unpaused, offers some and answers to the labels. */
  lemma CapacityGrows(workers: seq<Worker>, w: Worker, labels: Labels)
    ensures CapacityFor([], labels) == 0
    ensures CapacityFor(workers + [w], labels) == CapacityFor(workers, labels)
      + if !w.schedulingPaused && TART_VMS in w.resources && MatchesLabels(w.labels, labels)
        then AsInt(w.resources[TART_VMS]) else 0
  {
    var matches := (x: Worker) => MatchesLabels(x.labels, labels);
    FilterSnoc(matches, workers, w);
    SlotSumSnoc(Filter(matches, workers), w);
    assert !matches(w) ==> Filter(matches, workers + [w]) == Filter(matches, workers);
  }

  /** And to the global maximum, whatever its labels. */
  lemma MaximumGrows(workers: seq<Worker>, w: Worker)
    ensures SlotSum([]) == 0
    ensures SlotSum(workers + [w]) == SlotSum(workers)
      + if !w.schedulingPaused && TART_VMS in w.resources then AsInt(w.resources[TART_VMS]) else 0
  {
    SlotSumSnoc(workers, w);
  }
}
