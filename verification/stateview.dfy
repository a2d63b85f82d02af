/**
 The shared snapshot cache.  Models bridge/stateview.go:41-133: the class has
 the three mutex-guarded fields, one method per lock region; the functions are
 what those regions do to the fields, and what module `SingleFlight`
 interleaves.
 */
module StateViewModel {
  import opened Seqs

  /**
   A snapshot, reduced to what the protocol depends on: the time it carries,
   which refresh produced it, and when its VM list, the first of its two lists,
   was read.
   */
  datatype Snap = Snap(fetchedAt: int, refresh: nat, listedAt: nat)

  /** `refreshing` is the wait channel of the refresh in flight, if any. */
  datatype Cache = Cache(snap: Option<Snap>, refreshing: Option<nat>, lastErr: bool)

  datatype Entry = Served(snap: Snap) | Join(channel: nat) | Lead(lastSnap: Option<Snap>)

  datatype Answer = Answer(snap: Option<Snap>, err: bool)

  predicate Young(snap: Option<Snap>, ttl: int, now: int) {
    snap.Some? && now - snap.value.fetchedAt < ttl
  }

  /** The lock region Get starts with; `channel` is the one a leader makes. */
  function Entering(c: Cache, ttl: int, now: int): Entry {
    if Young(c.snap, ttl, now) then Served(c.snap.value)
    else if c.refreshing.Some? then Join(c.refreshing.value)
    else Lead(c.snap)
  }

  function Entered(c: Cache, ttl: int, now: int, channel: nat): Cache {
    if Entering(c, ttl, now).Lead? then c.(refreshing := Some(channel)) else c
  }

  /** The lock region a leader ends with. */
  function Published(c: Cache, result: Option<Snap>): Cache {
    Cache(if result.Some? then result else c.snap, None, result.None?)
  }

  function LeaderAnswer(result: Option<Snap>, lastSnap: Option<Snap>): Answer {
    if result.Some? then Answer(result, false) else Answer(lastSnap, true)
  }

  /** The lock region a joiner ends with: no snapshot is always an error. */
  function JoinerAnswer(c: Cache): Answer {
    if c.snap.None? then Answer(None, true) else Answer(c.snap, c.lastErr)
  }

  function Dropped(c: Cache): Cache {
    c.(snap := None)
  }

  class StateView {
    const ttl: int
    var snap: Option<Snap>
    var refreshing: Option<nat>
    var lastErr: bool

    constructor (ttl: int)
      ensures this.ttl == if ttl <= 0 then 5_000_000_000 else ttl
      ensures State() == Cache(None, None, false)
    {
      this.ttl := if ttl <= 0 then 5_000_000_000 else ttl;
      snap, refreshing, lastErr := None, None, false;
    }

    function State(): Cache
      reads this
    {
      Cache(snap, refreshing, lastErr)
    }

    method Enter(now: int, channel: nat) returns (entry: Entry)
      modifies this
      ensures entry == Entering(old(State()), ttl, now)
      ensures State() == Entered(old(State()), ttl, now, channel)
      ensures snap == old(snap) && lastErr == old(lastErr)
      ensures entry.Served? ==> snap == Some(entry.snap) && now - entry.snap.fetchedAt < ttl
      ensures !entry.Served? ==> refreshing == Some(if entry.Join? then entry.channel else channel)
      ensures entry.Lead? ==> old(refreshing).None?
    {
      if snap.Some? && now - snap.value.fetchedAt < ttl {
        return Served(snap.value);
      }
      if refreshing.Some? {
        return Join(refreshing.value);
      }
      refreshing := Some(channel);
      return Lead(snap);
    }

    method Publish(result: Option<Snap>, lastSnap: Option<Snap>) returns (answer: Answer)
      modifies this
      ensures answer == LeaderAnswer(result, lastSnap)
      ensures refreshing.None? && (result.None? ==> snap == old(snap))
      ensures State() == Published(old(State()), result)
    {
      if result.Some? {
        snap := result;
      }
      lastErr := result.None?;
      refreshing := None;
      if result.None? {
        return Answer(lastSnap, true);
      }
      return Answer(result, false);
    }

    method ReadAfterWait() returns (answer: Answer)
      ensures answer == JoinerAnswer(State())
      ensures answer.snap == snap && (snap.None? || lastErr <==> answer.err)
    {
      if snap.None? {
        return Answer(None, true);
      }
      return Answer(snap, lastErr);
    }

    /**
     One whole Get.  `fetched` is what the refresh it leads comes back with,
     `meanwhile` the state other goroutines have left by the time it returns or
     a joiner wakes, and `cancelled` a joiner whose context ends first.
     */
    method Get(now: int, channel: nat, fetched: Option<Snap>, meanwhile: Cache, cancelled: bool)
      returns (answer: Answer)
      modifies this
      ensures answer.snap.Some? || answer.err
      // A young snapshot is served as it is.
      ensures Young(old(snap), ttl, now) ==> answer == Answer(old(snap), false) && State() == old(State())
      // A leader caches and returns a good read whatever went on, an Invalidate included; a bad one changes no
      // snapshot, and the caller gets the one there was when it began, with the error.
      ensures !Young(old(snap), ttl, now) && old(refreshing).None? ==>
        if fetched.Some? then answer == Answer(fetched, false) && State() == Cache(fetched, None, false)
        else answer == Answer(old(snap), true) && State() == Cache(meanwhile.snap, None, true)
      // A joiner gets what it finds, never a retained snapshot without the error, or leaves with an error.
      ensures !Young(old(snap), ttl, now) && old(refreshing).Some? ==>
        && (answer.err <==> cancelled || meanwhile.lastErr || meanwhile.snap.None?)
        && answer.snap == (if cancelled then None else meanwhile.snap)
        && State() == meanwhile
      // If all that happened is its leader's refresh, it gets the good read, or what was cached with the error.
      ensures !Young(old(snap), ttl, now) && old(refreshing).Some? && !cancelled
              && meanwhile == Cache(if fetched.Some? then fetched else old(snap), None, fetched.None?) ==>
        answer == if fetched.Some? then Answer(fetched, false) else Answer(old(snap), true)
    {
      var entry := Enter(now, channel);
      if entry.Served? {
        return Answer(Some(entry.snap), false);
      }
      snap, refreshing, lastErr := meanwhile.snap, meanwhile.refreshing, meanwhile.lastErr;
      if entry.Lead? {
        answer := Publish(fetched, entry.lastSnap);
        return;
      }
      if cancelled {
        return Answer(None, true);
      }
      answer := ReadAfterWait();
    }

    method Invalidate()
      modifies this`snap
      ensures State() == Dropped(old(State()))
    {
      snap := None;
    }
  }
}
