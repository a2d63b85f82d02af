/**
 Every interleaving of Get callers, Invalidate and the clock over the shared
 snapshot cache.  Models bridge/stateview.go:75-133.

 `tick` numbers the steps, so "before" and "after" are comparisons of ticks.
 */
module SingleFlight {
  import opened Seqs
  import opened StateViewModel

  /** The outcome of the most recently completed refresh, and when it completed. */
  datatype Done = Done(channel: nat, ok: bool, at: nat)

  /** A Get call.  A returned one keeps what the clock and the last refresh were when it returned. */
  datatype Caller =
    | NotStarted
    | Waiting(began: nat, channel: nat)
    | Fetching(began: nat, channel: nat, lastSnap: Option<Snap>)
    | Listed(began: nat, channel: nat, lastSnap: Option<Snap>, listedAt: nat)
    | Publishing(began: nat, channel: nat, lastSnap: Option<Snap>, result: Option<Snap>)
    | Returned(began: nat, answer: Answer, at: int, lastDone: Option<Done>)

  /**
   `leaders[c]` is the caller that made wait channel `c`, `closes` the channels
   closed so far in order, and `quiet` the ticks of the Invalidates that ran
   while no refresh in flight held a VM list it could still publish.
   */
  datatype State = State(
    ttl: int,
    cache: Cache,
    callers: seq<Caller>,
    now: int,
    tick: nat,
    leaders: seq<nat>,
    closes: seq<nat>,
    lastDone: Option<Done>,
    quiet: set<nat>)

  datatype Step =
    | Begin(t: nat)
    | ListVMs(t: nat, ok: bool)
    | ListWorkers(t: nat, ok: bool)
    | Publish(t: nat)
    | Read(t: nat)
    | Cancel(t: nat)
    | Invalidate
    | Elapse(delta: nat)

  predicate Enabled(s: State, step: Step) {
    match step
    case Begin(t) => t < |s.callers| && s.callers[t].NotStarted?
    case ListVMs(t, _) => t < |s.callers| && s.callers[t].Fetching?
    case ListWorkers(t, _) => t < |s.callers| && s.callers[t].Listed?
    case Publish(t) => t < |s.callers| && s.callers[t].Publishing?
    case Read(t) => t < |s.callers| && s.callers[t].Waiting? && s.callers[t].channel in s.closes
    case Cancel(t) => t < |s.callers| && s.callers[t].Waiting?
    case Invalidate => true
    case Elapse(_) => true
  }

  /** A leader that has read the VM list and may still publish it. */
  predicate HoldsList(c: Caller) {
    c.Listed? || (c.Publishing? && c.result.Some?)
  }

  function ListReadAt(c: Caller): nat
    requires HoldsList(c)
  {
    if c.Listed? then c.listedAt else c.result.value.listedAt
  }

  predicate ListInFlight(s: State) {
    exists t :: 0 <= t < |s.callers| && HoldsList(s.callers[t])
  }

  function Return(s: State, t: nat, answer: Answer): State
    requires t < |s.callers| && !s.callers[t].NotStarted?
  {
    s.(callers := s.callers[t := Returned(s.callers[t].began, answer, s.now, s.lastDone)])
  }

  function Begun(s: State, t: nat): State
    requires t < |s.callers|
  {
    var channel := |s.leaders|;
    match Entering(s.cache, s.ttl, s.now)
    case Served(snap) =>
      s.(callers := s.callers[t := Returned(s.tick, Answer(Some(snap), false), s.now, s.lastDone)])
    case Join(c) => s.(callers := s.callers[t := Waiting(s.tick, c)])
    case Lead(last) =>
      s.(cache := Entered(s.cache, s.ttl, s.now, channel),
         callers := s.callers[t := Fetching(s.tick, channel, last)],
         leaders := s.leaders + [t])
  }

  function Act(s: State, step: Step): State
    requires Enabled(s, step)
  {
    match step
    case Begin(t) => Begun(s, t)
    case ListVMs(t, ok) =>
      var c := s.callers[t];
      s.(callers := s.callers[t := if ok then Listed(c.began, c.channel, c.lastSnap, s.tick)
                                   else Publishing(c.began, c.channel, c.lastSnap, None)])
    case ListWorkers(t, ok) =>
      var c := s.callers[t];
      var result := if ok then Some(Snap(s.now, c.channel, c.listedAt)) else None;
      s.(callers := s.callers[t := Publishing(c.began, c.channel, c.lastSnap, result)])
    case Publish(t) =>
      var c := s.callers[t];
      Return(s.(cache := Published(s.cache, c.result),
                closes := s.closes + [c.channel],
                lastDone := Some(Done(c.channel, c.result.Some?, s.tick))),
             t, LeaderAnswer(c.result, c.lastSnap))
    case Read(t) => Return(s, t, JoinerAnswer(s.cache))
    case Cancel(t) => Return(s, t, Answer(None, true))
    case Invalidate =>
      s.(cache := Dropped(s.cache), quiet := if ListInFlight(s) then s.quiet else s.quiet + {s.tick})
    case Elapse(delta) => s.(now := s.now + delta)
  }

  function Apply(s: State, step: Step): State
    requires Enabled(s, step)
  {
    var s' := Act(s, step);
    s'.(tick := s.tick + 1)
  }

  ghost predicate Init(s: State) {
    && s.ttl > 0
    && s.cache == Cache(None, None, false)
    && (forall t :: 0 <= t < |s.callers| ==> s.callers[t].NotStarted?)
    && s.leaders == [] && s.closes == [] && s.lastDone.None? && s.quiet == {}
  }

  ghost predicate Reaches(s: State, steps: seq<Step>, t: State)
    decreases |steps|
  {
    if |steps| == 0 then s == t
    else Enabled(s, steps[0]) && Reaches(Apply(s, steps[0]), steps[1..], t)
  }

  // ---- One refresh at a time --------------------------------------------------

  predicate Leads(c: Caller) {
    c.Fetching? || c.Listed? || c.Publishing?
  }

  /** A leader's channel is the one in flight, it made that channel, and its result is what it read. */
  ghost predicate LeaderOk(s: State, t: nat, c: Caller) {
    Leads(c) ==>
      && s.cache.refreshing == Some(c.channel)
      && c.channel < |s.leaders| && s.leaders[c.channel] == t
      && c.began < s.tick
      && (c.Publishing? && c.result.Some? ==>
            c.result.value.fetchedAt <= s.now && c.result.value.refresh == c.channel)
  }

  /** Every channel ever made is open and in flight, or closed, and closed only once. */
  ghost predicate ChannelsOk(s: State) {
    && (s.cache.refreshing.Some? ==>
          s.cache.refreshing.value < |s.leaders|
          && s.leaders[s.cache.refreshing.value] < |s.callers|
          && Leads(s.callers[s.leaders[s.cache.refreshing.value]]))
    && (forall c :: 0 <= c < |s.leaders| ==> (c in s.closes <==> s.cache.refreshing != Some(c)))
    && (forall c :: c in s.closes ==> c < |s.leaders|)
    && (forall i, j :: 0 <= i < j < |s.closes| ==> s.closes[i] != s.closes[j])
  }

  ghost predicate SingleFlightInv(s: State) {
    && ChannelsOk(s)
    && (forall t :: 0 <= t < |s.callers| ==> LeaderOk(s, t, s.callers[t]))
    && (forall t :: 0 <= t < |s.callers| && s.callers[t].Waiting? ==> s.callers[t].channel < |s.leaders|)
  }

  lemma StepKeepsSingleFlight(s: State, step: Step)
    requires SingleFlightInv(s) && Enabled(s, step)
    ensures SingleFlightInv(Apply(s, step))
  {
    var s' := Apply(s, step);
    match step
    case Begin(t) =>
    case ListVMs(t, ok) => assert LeaderOk(s, t, s.callers[t]);
    case ListWorkers(t, ok) => assert LeaderOk(s, t, s.callers[t]);
    case Publish(t) => PublishKeepsSingleFlight(s, t);
    case Read(t) =>
    case Cancel(t) =>
    case Invalidate =>
    case Elapse(_) =>
  }

  lemma PublishKeepsSingleFlight(s: State, t: nat)
    requires SingleFlightInv(s) && Enabled(s, Publish(t))
    ensures SingleFlightInv(Apply(s, Publish(t)))
  {
    var s' := Apply(s, Publish(t));
    var channel := s.callers[t].channel;
    assert LeaderOk(s, t, s.callers[t]);
    forall u | 0 <= u < |s'.callers|
      ensures LeaderOk(s', u, s'.callers[u])
    {
      assert LeaderOk(s, u, s.callers[u]);
    }
    assert channel !in s.closes;
  }

  // ---- What an answer means ---------------------------------------------------

  /** The cached snapshot against the last refresh: never newer than the clock, never fresh after a failure. */
  ghost predicate CacheOk(s: State) {
    && (s.lastDone.Some? ==> s.lastDone.value.at < s.tick)
    && (s.cache.lastErr <==> s.lastDone.Some? && !s.lastDone.value.ok)
    && (s.cache.snap.Some? ==>
          var x := s.cache.snap.value;
          && x.fetchedAt <= s.now
          && (!s.cache.lastErr ==> s.lastDone.Some? && s.lastDone.value.channel == x.refresh)
          && (s.cache.lastErr || s.cache.refreshing.Some? ==> s.now - x.fetchedAt >= s.ttl))
  }

  /** A waiter whose channel has closed has seen a refresh complete since it joined. */
  ghost predicate WaiterOk(s: State, c: Caller) {
    c.Waiting? ==>
      c.began < s.tick && (c.channel in s.closes ==> s.lastDone.Some? && s.lastDone.value.at >= c.began)
  }

  /** What every returned answer promises. */
  ghost predicate AnswerOk(ttl: int, c: Caller) {
    c.Returned? ==>
      && (c.answer.snap.Some? || c.answer.err)
      && (!c.answer.err ==>
            var x := c.answer.snap.value;
            && c.lastDone.Some? && c.lastDone.value.ok && c.lastDone.value.channel == x.refresh
            && (c.at - x.fetchedAt < ttl || c.lastDone.value.at >= c.began))
  }

  ghost predicate AnswersInv(s: State) {
    && CacheOk(s)
    && (forall t :: 0 <= t < |s.callers| ==> WaiterOk(s, s.callers[t]) && AnswerOk(s.ttl, s.callers[t]))
  }

  lemma StepKeepsAnswers(s: State, step: Step)
    requires SingleFlightInv(s) && AnswersInv(s) && Enabled(s, step)
    ensures AnswersInv(Apply(s, step))
  {
    match step
    case Begin(t) => BeginKeepsAnswers(s, t);
    case ListVMs(t, ok) =>
    case ListWorkers(t, ok) =>
    case Publish(t) => PublishKeepsAnswers(s, t);
    case Read(t) => assert WaiterOk(s, s.callers[t]);
    case Cancel(t) =>
    case Invalidate =>
    case Elapse(_) =>
  }

  lemma BeginKeepsAnswers(s: State, t: nat)
    requires SingleFlightInv(s) && AnswersInv(s) && Enabled(s, Begin(t))
    ensures AnswersInv(Apply(s, Begin(t)))
  {
    var s' := Apply(s, Begin(t));
    forall u | 0 <= u < |s'.callers|
      ensures WaiterOk(s', s'.callers[u]) && AnswerOk(s'.ttl, s'.callers[u])
    {
      assert WaiterOk(s, s.callers[u]) && AnswerOk(s.ttl, s.callers[u]);
    }
  }

  lemma PublishKeepsAnswers(s: State, t: nat)
    requires SingleFlightInv(s) && AnswersInv(s) && Enabled(s, Publish(t))
    ensures AnswersInv(Apply(s, Publish(t)))
  {
    var s' := Apply(s, Publish(t));
    assert LeaderOk(s, t, s.callers[t]);
    forall u | 0 <= u < |s'.callers|
      ensures WaiterOk(s', s'.callers[u]) && AnswerOk(s'.ttl, s'.callers[u])
    {
      assert WaiterOk(s, s.callers[u]) && AnswerOk(s.ttl, s.callers[u]);
    }
  }

  // ---- Invalidate -------------------------------------------------------------

  ghost predicate QuietCallerOk(q: nat, c: Caller) {
    && (HoldsList(c) ==> ListReadAt(c) > q)
    && (c.Returned? && !c.answer.err && c.began > q && c.answer.snap.Some? ==> c.answer.snap.value.listedAt > q)
  }

  /** After a quiet Invalidate, nothing from before it can reach a later Get with a nil error. */
  ghost predicate QuietInv(s: State) {
    forall q :: q in s.quiet ==>
      && q < s.tick
      && (s.cache.snap.Some? ==> s.cache.snap.value.listedAt > q)
      && (forall t :: 0 <= t < |s.callers| ==> QuietCallerOk(q, s.callers[t]))
  }

  lemma StepKeepsQuiet(s: State, step: Step)
    requires SingleFlightInv(s) && QuietInv(s) && Enabled(s, step)
    requires forall t :: 0 <= t < |s.callers| && s.callers[t].Returned? ==> s.callers[t].began < s.tick
    ensures QuietInv(Apply(s, step))
  {
    var s' := Apply(s, step);
    forall q | q in s'.quiet
      ensures q < s'.tick
      ensures s'.cache.snap.Some? ==> s'.cache.snap.value.listedAt > q
      ensures forall t :: 0 <= t < |s'.callers| ==> QuietCallerOk(q, s'.callers[t])
    {
      forall t | 0 <= t < |s'.callers|
        ensures QuietCallerOk(q, s'.callers[t])
      {
        assert LeaderOk(s, t, s.callers[t]);
        if q in s.quiet {
          assert QuietCallerOk(q, s.callers[t]);
        } else {
          assert !HoldsList(s.callers[t]);
        }
      }
      if step.Publish? {
        assert LeaderOk(s, step.t, s.callers[step.t]);
        assert QuietCallerOk(q, s.callers[step.t]);
      }
    }
  }

  // ---- Runs -------------------------------------------------------------------

  ghost predicate BeganBefore(s: State) {
    forall t :: 0 <= t < |s.callers| ==>
      && (!s.callers[t].NotStarted? ==> s.callers[t].began < s.tick)
      && (HoldsList(s.callers[t]) ==> ListReadAt(s.callers[t]) < s.tick)
  }

  ghost predicate Inv(s: State) {
    SingleFlightInv(s) && AnswersInv(s) && QuietInv(s) && BeganBefore(s)
  }

  lemma StepKeeps(s: State, step: Step)
    requires Inv(s) && Enabled(s, step)
    ensures Inv(Apply(s, step))
  {
    StepKeepsSingleFlight(s, step);
    StepKeepsAnswers(s, step);
    StepKeepsQuiet(s, step);
  }

  lemma {:induction false} RunKeeps(s: State, steps: seq<Step>, t: State)
    requires Inv(s) && Reaches(s, steps, t)
    ensures Inv(t) && t.ttl == s.ttl
    decreases |steps|
  {
    if |steps| == 0 {
    } else {
      StepKeeps(s, steps[0]);
      RunKeeps(Apply(s, steps[0]), steps[1..], t);
    }
  }

  /** At most one refresh is in flight, and no waiter is left on a channel nobody will close. */
  lemma OneRefreshInFlight(s: State, steps: seq<Step>, t: State)
    requires Init(s) && Reaches(s, steps, t)
    ensures forall i, j ::
      0 <= i < |t.callers| && 0 <= j < |t.callers| && Leads(t.callers[i]) && Leads(t.callers[j]) ==> i == j
    ensures forall i, j :: 0 <= i < j < |t.closes| ==> t.closes[i] != t.closes[j]
    ensures forall i :: 0 <= i < |t.callers| && t.callers[i].Waiting? ==>
      || t.callers[i].channel in t.closes
      || exists j :: 0 <= j < |t.callers| && Leads(t.callers[j]) && t.callers[j].channel == t.callers[i].channel
  {
    RunKeeps(s, steps, t);
    forall i, j | 0 <= i < |t.callers| && 0 <= j < |t.callers| && Leads(t.callers[i]) && Leads(t.callers[j])
      ensures i == j
    {
      assert LeaderOk(t, i, t.callers[i]) && LeaderOk(t, j, t.callers[j]);
    }
    forall i | 0 <= i < |t.callers| && t.callers[i].Waiting? && t.callers[i].channel !in t.closes
      ensures exists j :: 0 <= j < |t.callers| && Leads(t.callers[j]) && t.callers[j].channel == t.callers[i].channel
    {
      var leader := t.leaders[t.callers[i].channel];
      assert LeaderOk(t, leader, t.callers[leader]);
    }
  }

  /** The channel a Publish closes is its own, made by the same caller and never closed before. */
  lemma ClosedOnceByLeader(s: State, steps: seq<Step>, t: State, u: nat)
    requires Init(s) && Reaches(s, steps, t) && Enabled(t, Publish(u))
    ensures t.callers[u].channel !in t.closes
    ensures t.callers[u].channel < |t.leaders| && t.leaders[t.callers[u].channel] == u
    ensures Apply(t, Publish(u)).closes == t.closes + [t.callers[u].channel]
  {
    RunKeeps(s, steps, t);
    assert LeaderOk(t, u, t.callers[u]);
  }

  /**
   Get never returns (nil, nil).  A nil error comes with the result of the most
   recently completed refresh, which succeeded, and that snapshot is younger
   than the ttl or was completed after the caller began.
   */
  lemma NilErrorMeansCurrent(s: State, steps: seq<Step>, t: State, u: nat)
    requires Init(s) && Reaches(s, steps, t)
    requires u < |t.callers| && t.callers[u].Returned?
    ensures var c := t.callers[u];
      && (c.answer.snap.Some? || c.answer.err)
      && (!c.answer.err ==>
            var x := c.answer.snap.value;
            && c.lastDone.Some? && c.lastDone.value.ok && c.lastDone.value.channel == x.refresh
            && (c.at - x.fetchedAt < s.ttl || c.lastDone.value.at >= c.began))
  {
    RunKeeps(s, steps, t);
    assert AnswerOk(t.ttl, t.callers[u]);
  }

  // ---- When Invalidate forces a fresh read ------------------------------------

  /** Caller `u` got a snapshot with a nil error whose VM list was read no later than tick `q`. */
  ghost predicate ServedFromBefore(s: State, u: nat, q: nat) {
    && u < |s.callers| && s.callers[u].Returned?
    && !s.callers[u].answer.err && s.callers[u].answer.snap.Some?
    && s.callers[u].answer.snap.value.listedAt <= q
  }

  ghost predicate CanServeFromBefore(s: State, u: nat, q: nat) {
    exists steps, t :: Reaches(s, steps, t) && ServedFromBefore(t, u, q)
  }

  lemma {:induction false} BeginsLater(s: State, steps: seq<Step>, t: State, u: nat, q: nat)
    requires Reaches(s, steps, t) && u < |s.callers| && q < s.tick
    requires s.callers[u].NotStarted? || s.callers[u].began > q
    ensures |t.callers| == |s.callers| && (t.callers[u].NotStarted? || t.callers[u].began > q)
    ensures s.quiet <= t.quiet
    decreases |steps|
  {
    if |steps| == 0 {
    } else {
      BeginsLater(Apply(s, steps[0]), steps[1..], t, u, q);
    }
  }

  /**
   A Get begun after an Invalidate can still be handed, with a nil error, a VM
   list read before it exactly when a refresh that had read its list, and could
   still publish it, was in flight as Invalidate ran.
   */
  lemma InvalidateForcesFreshIff(s0: State, before: seq<Step>, s: State, u: nat)
    requires Init(s0) && Reaches(s0, before, s)
    requires u < |s.callers| && s.callers[u].NotStarted?
    ensures ListInFlight(s) <==> CanServeFromBefore(Apply(s, Invalidate), u, s.tick)
  {
    RunKeeps(s0, before, s);
    var s1 := Apply(s, Invalidate);
    if ListInFlight(s) {
      var steps, t := StaleAfterInvalidate(s, u);
      assert Reaches(s1, steps, t) && ServedFromBefore(t, u, s.tick);
    } else {
      forall steps, t | Reaches(s1, steps, t)
        ensures !ServedFromBefore(t, u, s.tick)
      {
        StepKeeps(s, Invalidate);
        RunKeeps(s1, steps, t);
        BeginsLater(s1, steps, t, u, s.tick);
        assert QuietCallerOk(s.tick, t.callers[u]);
      }
    }
  }

  lemma Prepend(s: State, step: Step, steps: seq<Step>, t: State)
    requires Enabled(s, step) && Reaches(Apply(s, step), steps, t)
    ensures Reaches(s, [step] + steps, t)
  {
    assert ([step] + steps)[1..] == steps;
  }

  /** The leader publishes and the joiner reads: the joiner is handed the leader's snapshot. */
  lemma JoinerReads(s: State, leader: nat, u: nat) returns (steps: seq<Step>, t: State)
    requires leader < |s.callers| && u < |s.callers| && leader != u
    requires s.callers[leader].Publishing? && s.callers[leader].result.Some?
    requires s.callers[u].Waiting? && s.callers[u].channel == s.callers[leader].channel
    ensures Reaches(s, steps, t) && u < |t.callers| && t.callers[u].Returned?
    ensures t.callers[u].answer == Answer(s.callers[leader].result, false)
  {
    var s1 := Apply(s, Publish(leader));
    t := Apply(s1, Read(u));
    assert Reaches(t, [], t);
    Prepend(s1, Read(u), [], t);
    steps := [Read(u)] + [];
    Prepend(s, Publish(leader), steps, t);
    steps := [Publish(leader)] + steps;
  }

  lemma StaleAfterInvalidate(s: State, u: nat) returns (steps: seq<Step>, t: State)
    requires Inv(s) && u < |s.callers| && s.callers[u].NotStarted? && ListInFlight(s)
    ensures Reaches(Apply(s, Invalidate), steps, t) && ServedFromBefore(t, u, s.tick)
  {
    var leader :| 0 <= leader < |s.callers| && HoldsList(s.callers[leader]);
    assert LeaderOk(s, leader, s.callers[leader]);
    var s1 := Apply(s, Invalidate);
    var s2 := Apply(s1, Begin(u));
    assert s2.callers[u] == Waiting(s1.tick, s.callers[leader].channel);
    if s.callers[leader].Listed? {
      var s3 := Apply(s2, ListWorkers(leader, true));
      steps, t := JoinerReads(s3, leader, u);
      Prepend(s2, ListWorkers(leader, true), steps, t);
      steps := [ListWorkers(leader, true)] + steps;
    } else {
      steps, t := JoinerReads(s2, leader, u);
    }
    Prepend(s1, Begin(u), steps, t);
    steps := [Begin(u)] + steps;
  }
}
