/**
 The heartbeat thresholds in the configuration.  Models config/config.go:199-245,
 291-337 and the effective staleness of manager/manager.go:74-77.  A duration
 string is taken as already parsed.
 */
module Config {
  import opened Seqs
  import opened Orchard
  import opened Workers

  const SECOND := 1_000_000_000
  const DEFAULT_WORKER_STALE_AFTER := 120 * SECOND
  const DEFAULT_WORKER_PRUNE_AFTER := 3600 * SECOND

  /** A duration setting: absent, not a duration, or a number of nanoseconds. */
  datatype Setting = Unset | Malformed | Given(ns: int)

  datatype Thresholds = Thresholds(staleAfter: Setting, pruneAfter: Setting)

  datatype ConfigError = StaleMalformed | StaleNotPositive | PruneMalformed | PruneNegative | PruneNotBeyondStale

  function StaleAfterDuration(c: Thresholds): int {
    if c.staleAfter.Given? then c.staleAfter.ns else 0
  }

  function EffectiveStaleAfter(c: Thresholds): int {
    match c.staleAfter
    case Unset => DEFAULT_WORKER_STALE_AFTER
    case Malformed => 0
    case Given(ns) => ns
  }

  predicate PruneDefaultSuppressed(c: Thresholds) {
    c.pruneAfter.Unset? && EffectiveStaleAfter(c) >= DEFAULT_WORKER_PRUNE_AFTER
  }

  function PruneAfterDuration(c: Thresholds): int {
    match c.pruneAfter
    case Unset => if PruneDefaultSuppressed(c) then 0 else DEFAULT_WORKER_PRUNE_AFTER
    case Malformed => 0
    case Given(ns) => if ns < 0 then 0 else ns
  }

  /** The staleness threshold the manager hands to the StateView. */
  function StaleInForce(c: Thresholds): int {
    if StaleAfterDuration(c) <= 0 then DEFAULT_WORKER_STALE_AFTER else StaleAfterDuration(c)
  }

  /** The errors are exactly these conditions, in this order; none means the thresholds are accepted. */
  method Validate(c: Thresholds) returns (errs: seq<ConfigError>)
    ensures StaleMalformed in errs <==> c.staleAfter.Malformed?
    ensures StaleNotPositive in errs <==> c.staleAfter.Given? && c.staleAfter.ns <= 0
    ensures PruneMalformed in errs <==> c.pruneAfter.Malformed?
    ensures PruneNegative in errs <==> c.pruneAfter.Given? && c.pruneAfter.ns < 0
    ensures PruneNotBeyondStale in errs <==>
      c.pruneAfter.Given? && 0 < c.pruneAfter.ns <= EffectiveStaleAfter(c)
    ensures errs == [] <==> Accepted(c)
  {
    errs := [];
    if !c.staleAfter.Unset? {
      if c.staleAfter.Malformed? {
        errs := errs + [StaleMalformed];
      } else if c.staleAfter.ns <= 0 {
        errs := errs + [StaleNotPositive];
      }
    }
    if !c.pruneAfter.Unset? {
      if c.pruneAfter.Malformed? {
        errs := errs + [PruneMalformed];
      } else if c.pruneAfter.ns < 0 {
        errs := errs + [PruneNegative];
      }
    }
    var prune, stale := PruneAfterDuration(c), EffectiveStaleAfter(c);
    if !c.pruneAfter.Unset? && prune > 0 && stale > 0 && prune <= stale {
      errs := errs + [PruneNotBeyondStale];
    }
  }

  predicate Accepted(c: Thresholds) {
    && (c.staleAfter.Unset? || (c.staleAfter.Given? && c.staleAfter.ns > 0))
    && (c.pruneAfter.Unset? ||
        (c.pruneAfter.Given? &&
         (c.pruneAfter.ns == 0 || (c.pruneAfter.ns > 0 && c.pruneAfter.ns > EffectiveStaleAfter(c)))))
  }

  /** Whatever the configuration accepts, pruning is off or starts strictly beyond the staleness in force. */
  lemma PruneBeyondStale(c: Thresholds)
    requires Accepted(c)
    ensures StaleInForce(c) > 0
    ensures PruneAfterDuration(c) == 0 || PruneAfterDuration(c) > StaleInForce(c)
    ensures PruneAfterDuration(c) == 0 <==> c.pruneAfter == Given(0) || PruneDefaultSuppressed(c)
  {
  }

  /** The time test of the prune loop. */
  predicate OfflinePast(w: Worker, pruneAfter: int, now: int) {
    w.lastSeen.Some? && now - w.lastSeen.value > pruneAfter
  }

  /** So the time test alone already leaves every live worker out. */
  lemma LiveIsNotOfflinePast(c: Thresholds, w: Worker, now: int)
    requires Accepted(c) && PruneAfterDuration(c) > 0 && WorkerLive(w, StaleInForce(c), now)
    ensures !OfflinePast(w, PruneAfterDuration(c), now)
  {
    PruneBeyondStale(c);
  }

  /** For any two thresholds, the time test is safe exactly when pruning does not start before staleness ends. */
  lemma TimeTestSafeIff(staleAfter: int, pruneAfter: int)
    requires staleAfter > 0
    ensures pruneAfter >= staleAfter <==>
      forall w: Worker, now: int :: WorkerLive(w, staleAfter, now) ==> !OfflinePast(w, pruneAfter, now)
  {
    if pruneAfter < staleAfter {
      var w := Worker("w", map[], map[], false, Some(0));
      assert WorkerLive(w, staleAfter, staleAfter) && OfflinePast(w, pruneAfter, staleAfter);
    }
  }

  /** The thresholds an accepted configuration puts in force: what it gives, or the defaults. */
  lemma ThresholdsInForce(c: Thresholds)
    requires Accepted(c)
    ensures c.staleAfter.Given? ==> StaleInForce(c) == EffectiveStaleAfter(c) == c.staleAfter.ns
    ensures c.staleAfter.Unset? ==> StaleInForce(c) == EffectiveStaleAfter(c) == 120 * SECOND
    ensures c.pruneAfter.Given? ==> PruneAfterDuration(c) == c.pruneAfter.ns
    ensures c.pruneAfter.Unset? ==>
      PruneAfterDuration(c) == if StaleInForce(c) >= 3600 * SECOND then 0 else 3600 * SECOND
  {
  }
}
