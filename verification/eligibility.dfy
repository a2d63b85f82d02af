/**
 AutoSize exclusions and the monitor that reports them by differences.
 Models bridge/eligibility.go.
 */
module Eligibility {
  import opened Seqs
  import opened Orchard
  import opened AutoSize
  import opened Metrics

  type Gauge = map<seq<Symbol>, Series>

  datatype Exclusion = Exclusion(worker: string, pinLabel: string, reason: Reason, sharedWith: seq<string>)

  function ReasonText(r: Reason): string {
    match r
    case SchedulingPaused => "scheduling_paused"
    case MissingPinLabel => "missing_pin_label"
    case DuplicatePinLabel => "duplicate_pin_label"
    case MissingResources => "missing_resources"
    case BelowReserves => "below_reserves"
  }

  function NamesOf(ws: seq<Worker>): seq<string> {
    seq(|ws|, i requires 0 <= i < |ws| => ws[i].name)
  }

  /** The other live holders of `w`'s pin. */
  function OtherHolders(w: Worker, workers: seq<Worker>): seq<Worker> {
    Filter((x: Worker) => x.name != w.name && PinIdentity(x) == PinIdentity(w), workers)
  }

  predicate IsExcluded(w: Worker, workers: seq<Worker>, labels: Labels, reserves: Reserves) {
    MatchesLabels(w.labels, labels) && AutoSize.Exclusion(w, workers, reserves).Some?
  }

  function Describe(w: Worker, workers: seq<Worker>, reserves: Reserves): Exclusion
    requires AutoSize.Exclusion(w, workers, reserves).Some?
  {
    var reason := AutoSize.Exclusion(w, workers, reserves).value;
    Exclusion(w.name, PinIdentity(w), reason,
              if reason == DuplicatePinLabel then NamesOf(OtherHolders(w, workers)) else [])
  }

  /** The worker's exclusion, if it matches the labels and has one. */
  function ExclusionAt(w: Worker, workers: seq<Worker>, labels: Labels, reserves: Reserves): seq<Exclusion> {
    if IsExcluded(w, workers, labels, reserves) then [Describe(w, workers, reserves)] else []
  }

  /** The exclusions of the first `n` workers, in input order. */
  function ExclusionsOf(workers: seq<Worker>, n: nat, labels: Labels, reserves: Reserves): seq<Exclusion>
    requires n <= |workers|
  {
    if n == 0 then []
    else ExclusionsOf(workers, n - 1, labels, reserves) + ExclusionAt(workers[n - 1], workers, labels, reserves)
  }

  method SharedWith(w: Worker, workers: seq<Worker>) returns (names: seq<string>)
    ensures names == NamesOf(OtherHolders(w, workers))
  {
    ghost var shares := (x: Worker) => x.name != w.name && PinIdentity(x) == PinIdentity(w);
    names := [];
    ghost var others: seq<Worker> := [];
    for j := 0 to |workers|
      invariant others == Filter(shares, workers[..j]) && names == NamesOf(others)
    {
      FilterStep(shares, workers, j);
      if workers[j].name != w.name && PinIdentity(workers[j]) == PinIdentity(w) {
        others := others + [workers[j]];
        names := names + [workers[j].name];
      }
    }
    assert workers[..|workers|] == workers;
  }

  /** The body of the exclusion loop, for one worker. */
  method Examine(w: Worker, workers: seq<Worker>, counts: map<string, nat>, labels: Labels, reserves: Reserves)
    returns (out: seq<Exclusion>)
    requires CountsPins(counts, workers)
    ensures out == ExclusionAt(w, workers, labels, reserves)
  {
    if !MatchesLabels(w.labels, labels) {
      return [];
    }
    CountedExclusion(w, workers, counts, reserves);
    var reason := ExclusionReason(w, CountOf(counts, PinIdentity(w)), reserves);
    if reason.None? {
      return [];
    }
    var sharedWith: seq<string> := [];
    if reason.value == DuplicatePinLabel {
      sharedWith := SharedWith(w, workers);
    }
    return [Exclusion(w.name, PinIdentity(w), reason.value, sharedWith)];
  }

  method AutoSizeExclusions(workers: seq<Worker>, labels: Labels, reserves: Reserves) returns (out: seq<Exclusion>)
    ensures out == ExclusionsOf(workers, |workers|, labels, reserves)
  {
    var counts := PinCounts(workers);
    out := [];
    for i := 0 to |workers|
      invariant out == ExclusionsOf(workers, i, labels, reserves)
    {
      var ex := Examine(workers[i], workers, counts, labels, reserves);
      out := out + ex;
    }
  }

  // ---- What the exclusions say ------------------------------------------------

  lemma {:induction false} ExclusionsCount(workers: seq<Worker>, n: nat, labels: Labels, reserves: Reserves)
    requires n <= |workers|
    ensures |ExclusionsOf(workers, n, labels, reserves)|
         == |Filter((w: Worker) => IsExcluded(w, workers, labels, reserves), workers[..n])|
  {
    if n > 0 {
      ExclusionsCount(workers, n - 1, labels, reserves);
      FilterStep((w: Worker) => IsExcluded(w, workers, labels, reserves), workers, n - 1);
      assert |ExclusionAt(workers[n - 1], workers, labels, reserves)|
          == if IsExcluded(workers[n - 1], workers, labels, reserves) then 1 else 0;
    }
  }

  /** Every label-matching live worker is either counted as capacity or reported as excluded, never both. */
  lemma EligibilityPartition(workers: seq<Worker>, labels: Labels, reserves: Reserves)
    ensures |Candidates(workers, labels, reserves)| + |ExclusionsOf(workers, |workers|, labels, reserves)|
         == |Targets(workers, labels)|
  {
    ExclusionsCount(workers, |workers|, labels, reserves);
    assert workers[..|workers|] == workers;
    FilterSplit((w: Worker) => MatchesLabels(w.labels, labels),
                (w: Worker) => IsCandidate(w, workers, labels, reserves),
                (w: Worker) => IsExcluded(w, workers, labels, reserves), workers);
  }

  /** A pin held twice is out of every pool, whatever the labels and reserves; its exclusion names all the others. */
  lemma SharedPinsAreOut(workers: seq<Worker>, w: Worker, labels: Labels, reserves: Reserves)
    requires UniqueNames(workers) && w in workers && Holders(workers, PinIdentity(w)) > 1
    ensures w !in Candidates(workers, labels, reserves)
    ensures !w.schedulingPaused && PinIdentity(w) != "" ==>
      && AutoSize.Exclusion(w, workers, reserves) == Some(DuplicatePinLabel)
      && |Describe(w, workers, reserves).sharedWith| == Holders(workers, PinIdentity(w)) - 1
  {
    CandidateMember(workers, labels, reserves, w);
    var i :| 0 <= i < |workers| && workers[i] == w;
    var self := (x: Worker) => x.name == w.name && PinIdentity(x) == PinIdentity(w);
    forall j | 0 <= j < |workers| && self(workers[j])
      ensures j == i
    {
      assert NameOf(workers[j]) == NameOf(workers[i]);
    }
    OnlyOne(self, workers, i);
    FilterSplit((x: Worker) => PinIdentity(x) == PinIdentity(w), self,
                (x: Worker) => x.name != w.name && PinIdentity(x) == PinIdentity(w), workers);
  }

  // ---- The monitor ------------------------------------------------------------

  /** The monitor's comparison: reason, pin, and the other holders' names joined into one text. */
  predicate SameExclusion(a: Exclusion, b: Exclusion) {
    a.reason == b.reason && a.pinLabel == b.pinLabel && Join(a.sharedWith, ',') == Join(b.sharedWith, ',')
  }

  function LabelValues(scaleSet: string, ex: Exclusion): seq<string> {
    [scaleSet, ex.worker, ex.pinLabel, ReasonText(ex.reason)]
  }

  /** Worker name to exclusion; later entries win. */
  function ByWorker(exs: seq<Exclusion>): map<string, Exclusion> {
    if |exs| == 0 then map[]
    else
      var ex := exs[|exs| - 1];
      ByWorker(exs[..|exs| - 1])[ex.worker := ex]
  }

  function CurrentOf(workers: seq<Worker>, labels: Labels, reserves: Reserves): map<string, Exclusion> {
    ByWorker(ExclusionsOf(workers, |workers|, labels, reserves))
  }

  type Observed = map<string, map<string, Exclusion>>

  function PrevOf(last: Observed, scaleSet: string): map<string, Exclusion> {
    if scaleSet in last then last[scaleSet] else map[]
  }

  function NameSet(workers: seq<Worker>): set<string> {
    set w | w in workers :: w.name
  }

  method Evaluate(workers: seq<Worker>, labels: Labels, reserves: Reserves)
    returns (current: map<string, Exclusion>)
    ensures current == CurrentOf(workers, labels, reserves)
  {
    var exs := AutoSizeExclusions(workers, labels, reserves);
    current := map[];
    for i := 0 to |exs|
      invariant current == ByWorker(exs[..i])
    {
      assert exs[..i + 1][..i] == exs[..i];
      current := current[exs[i].worker := exs[i]];
    }
    assert exs[..|exs|] == exs;
  }

  /** A rebuild from scratch: one tuple for each scale set's each excluded worker. */
  function Tuples(last: Observed): set<seq<string>> {
    set s, n | s in last && n in last[s] :: LabelValues(s, last[s][n])
  }

  /** Each exclusion is filed under its own worker. */
  ghost predicate Filed(m: map<string, Exclusion>) {
    forall n :: n in m ==> m[n].worker == n
  }

  ghost predicate AllFiled(last: Observed) {
    forall s :: s in last ==> Filed(last[s])
  }

  lemma {:induction false} ByWorkerFiles(exs: seq<Exclusion>)
    ensures forall n :: n in ByWorker(exs) ==> ByWorker(exs)[n] in exs && ByWorker(exs)[n].worker == n
  {
    if |exs| > 0 {
      ByWorkerFiles(exs[..|exs| - 1]);
    }
  }

  lemma CurrentIsFiled(workers: seq<Worker>, labels: Labels, reserves: Reserves)
    ensures Filed(CurrentOf(workers, labels, reserves))
  {
    ByWorkerFiles(ExclusionsOf(workers, |workers|, labels, reserves));
  }

  /** The workers a WARN is due for: newly excluded, or excluded differently from the previous tick. */
  function Changed(prev: map<string, Exclusion>, current: map<string, Exclusion>): set<string> {
    set n | n in current && !(n in prev && SameExclusion(prev[n], current[n]))
  }

  // ---- What is filed, over the records alone --------------------------------------

  lemma {:induction false} ByWorkerOf(exs: seq<Exclusion>, k: nat)
    requires k < |exs| && OneEach(exs)
    ensures exs[k].worker in ByWorker(exs) && ByWorker(exs)[exs[k].worker] == exs[k]
  {
    var n := |exs| - 1;
    if k < n {
      ByWorkerOf(exs[..n], k);
      assert exs[..n][k].worker != exs[n].worker;
    }
  }

  /** Each excluded worker is in the list. */
  lemma {:induction false} ExclusionIsListed(workers: seq<Worker>, n: nat, labels: Labels, reserves: Reserves, i: nat)
    requires i < n <= |workers| && IsExcluded(workers[i], workers, labels, reserves)
    ensures Describe(workers[i], workers, reserves) in ExclusionsOf(workers, n, labels, reserves)
  {
    if i < n - 1 {
      ExclusionIsListed(workers, n - 1, labels, reserves, i);
    }
  }

  /** Each entry of the list is some excluded worker's. */
  lemma {:induction false} ListedIsExclusion(workers: seq<Worker>, n: nat, labels: Labels, reserves: Reserves, k: nat)
    returns (i: nat)
    requires n <= |workers| && k < |ExclusionsOf(workers, n, labels, reserves)|
    ensures i < n && IsExcluded(workers[i], workers, labels, reserves)
    ensures ExclusionsOf(workers, n, labels, reserves)[k] == Describe(workers[i], workers, reserves)
  {
    var init := ExclusionsOf(workers, n - 1, labels, reserves);
    var last := ExclusionAt(workers[n - 1], workers, labels, reserves);
    assert ExclusionsOf(workers, n, labels, reserves) == init + last;
    if k < |init| {
      i := ListedIsExclusion(workers, n - 1, labels, reserves, k);
      assert (init + last)[k] == init[k];
    } else {
      i := n - 1;
      assert (init + last)[k] == last[k - |init|];
    }
  }

  ghost predicate OneEach(exs: seq<Exclusion>) {
    forall k, l :: 0 <= k < l < |exs| ==> exs[k].worker != exs[l].worker
  }

  /** With unique Names, no two entries are for one name. */
  lemma {:induction false} ListedOnce(workers: seq<Worker>, n: nat, labels: Labels, reserves: Reserves)
    requires UniqueNames(workers) && n <= |workers|
    ensures OneEach(ExclusionsOf(workers, n, labels, reserves))
  {
    if n > 0 {
      var init := ExclusionsOf(workers, n - 1, labels, reserves);
      ListedOnce(workers, n - 1, labels, reserves);
      forall k | 0 <= k < |init|
        ensures init[k].worker != workers[n - 1].name
      {
        var i := ListedIsExclusion(workers, n - 1, labels, reserves, k);
        assert NameOf(workers[i]) != NameOf(workers[n - 1]);
      }
      OneMore(init, ExclusionAt(workers[n - 1], workers, labels, reserves), workers[n - 1].name);
    }
  }

  lemma OneMore(init: seq<Exclusion>, last: seq<Exclusion>, name: string)
    requires OneEach(init) && |last| <= 1 && (last != [] ==> last[0].worker == name)
    requires forall k :: 0 <= k < |init| ==> init[k].worker != name
    ensures OneEach(init + last)
  {
  }

  /** A worker's record in the monitor: its own name and pin, its reason, and whom it shares the pin with. */
  ghost predicate Records(ex: Exclusion, w: Worker, workers: seq<Worker>, reserves: Reserves) {
    && ex.worker == w.name && ex.pinLabel == LabelOf(w.labels, PIN_LABEL_KEY)
    && AutoSize.Exclusion(w, workers, reserves) == Some(ex.reason)
    && forall n :: n in ex.sharedWith <==>
         ex.reason == DuplicatePinLabel && n != w.name
         && exists x :: x in workers && x.name == n && LabelOf(x.labels, PIN_LABEL_KEY) == ex.pinLabel
  }

  /** Filed is exactly every label-matching worker that is no candidate, under its own name and with its own record. */
  ghost predicate FilesWorkers(current: map<string, Exclusion>, workers: seq<Worker>, labels: Labels,
                               reserves: Reserves) {
    && (forall w :: w in workers ==>
          (w.name in current <==> MatchesLabels(w.labels, labels) && w !in Candidates(workers, labels, reserves))
          && (w.name in current ==> Records(current[w.name], w, workers, reserves)))
    && forall n :: n in current ==> exists w :: w in workers && w.name == n
  }

  lemma DescribeRecords(w: Worker, workers: seq<Worker>, reserves: Reserves)
    requires AutoSize.Exclusion(w, workers, reserves).Some?
    ensures Records(Describe(w, workers, reserves), w, workers, reserves)
  {
    var ex, others := Describe(w, workers, reserves), OtherHolders(w, workers);
    if ex.reason == DuplicatePinLabel {
      forall n
        ensures n in ex.sharedWith <==>
          n != w.name && exists x :: x in workers && x.name == n && LabelOf(x.labels, PIN_LABEL_KEY) == ex.pinLabel
      {
        SharerIff(w, workers, n);
      }
    }
  }

  lemma SharerIff(w: Worker, workers: seq<Worker>, n: string)
    ensures n in NamesOf(OtherHolders(w, workers)) <==>
      n != w.name && exists x :: x in workers && x.name == n && PinIdentity(x) == PinIdentity(w)
  {
    var shares := (x: Worker) => x.name != w.name && PinIdentity(x) == PinIdentity(w);
    var others := OtherHolders(w, workers);
    if n in NamesOf(others) {
      var i :| 0 <= i < |others| && NamesOf(others)[i] == n;
      FilterMember(shares, workers, others[i]);
    }
    if n != w.name && exists x :: x in workers && x.name == n && PinIdentity(x) == PinIdentity(w) {
      var x :| x in workers && x.name == n && PinIdentity(x) == PinIdentity(w);
      FilterMember(shares, workers, x);
      var i :| 0 <= i < |others| && others[i] == x;
      assert NamesOf(others)[i] == n;
    }
  }

  lemma FiledIsWorker(workers: seq<Worker>, labels: Labels, reserves: Reserves, n: string) returns (w: Worker)
    requires n in CurrentOf(workers, labels, reserves)
    ensures w in workers && w.name == n && IsExcluded(w, workers, labels, reserves)
  {
    var exs := ExclusionsOf(workers, |workers|, labels, reserves);
    ByWorkerFiles(exs);
    var k :| 0 <= k < |exs| && exs[k] == ByWorker(exs)[n];
    var i := ListedIsExclusion(workers, |workers|, labels, reserves, k);
    w := workers[i];
  }

  lemma FiledIff(workers: seq<Worker>, labels: Labels, reserves: Reserves, w: Worker)
    requires UniqueNames(workers) && w in workers
    ensures var current := CurrentOf(workers, labels, reserves);
      && (w.name in current <==> IsExcluded(w, workers, labels, reserves))
      && (w.name in current ==> current[w.name] == Describe(w, workers, reserves))
  {
    var exs := ExclusionsOf(workers, |workers|, labels, reserves);
    ListedOnce(workers, |workers|, labels, reserves);
    ByWorkerFiles(exs);
    if IsExcluded(w, workers, labels, reserves) {
      var i :| 0 <= i < |workers| && workers[i] == w;
      ExclusionIsListed(workers, |workers|, labels, reserves, i);
      var k :| 0 <= k < |exs| && exs[k] == Describe(w, workers, reserves);
      ByWorkerOf(exs, k);
    } else if w.name in ByWorker(exs) {
      var x := FiledIsWorker(workers, labels, reserves, w.name);
      NamesIdentify(workers, x, w);
    }
  }

  /** One tick files exactly the workers AutoSize cannot use. */
  lemma CurrentFilesWorkers(workers: seq<Worker>, labels: Labels, reserves: Reserves)
    ensures UniqueNames(workers) ==> FilesWorkers(CurrentOf(workers, labels, reserves), workers, labels, reserves)
  {
    if UniqueNames(workers) {
      var current := CurrentOf(workers, labels, reserves);
      forall w | w in workers
        ensures w.name in current <==> MatchesLabels(w.labels, labels) && w !in Candidates(workers, labels, reserves)
        ensures w.name in current ==> Records(current[w.name], w, workers, reserves)
      {
        FiledIff(workers, labels, reserves, w);
        CandidateMember(workers, labels, reserves, w);
        if w.name in current {
          DescribeRecords(w, workers, reserves);
        }
      }
      forall n | n in current
        ensures exists w :: w in workers && w.name == n
      {
        var w := FiledIsWorker(workers, labels, reserves, n);
      }
    }
  }

  /** Each reason has an identifier of its own, a stable one that the metric's readers rely on. */
  lemma ReasonTextInjective(a: Reason, b: Reason)
    ensures ReasonText(a) == ReasonText(b) <==> a == b
    ensures ReasonText(SchedulingPaused) == "scheduling_paused" && ReasonText(MissingPinLabel) == "missing_pin_label"
    ensures ReasonText(DuplicatePinLabel) == "duplicate_pin_label"
    ensures ReasonText(MissingResources) == "missing_resources" && ReasonText(BelowReserves) == "below_reserves"
  {
    assert "scheduling_paused"[0] == 's' && "missing_pin_label"[8] == 'p' && "duplicate_pin_label"[0] == 'd'
      && "missing_resources"[8] == 'r' && "below_reserves"[0] == 'b';
  }

  /**
   The gauge, over the records alone: a tuple of this scale set is shown exactly
   when it is some label-matching non-candidate's name, pin and reason.
   */
  lemma TuplesOverWorkers(last: Observed, scaleSet: string, workers: seq<Worker>, labels: Labels, reserves: Reserves,
                          t: seq<string>)
    requires UniqueNames(workers) && |t| == 4 && t[0] == scaleSet
    requires scaleSet in last && last[scaleSet] == CurrentOf(workers, labels, reserves)
    ensures t in Tuples(last) <==>
      exists w :: w in workers && MatchesLabels(w.labels, labels) && w !in Candidates(workers, labels, reserves)
        && AutoSize.Exclusion(w, workers, reserves).Some?
        && t == [scaleSet, w.name, LabelOf(w.labels, PIN_LABEL_KEY),
                 ReasonText(AutoSize.Exclusion(w, workers, reserves).value)]
  {
    CurrentFilesWorkers(workers, labels, reserves);
    var current := CurrentOf(workers, labels, reserves);
    if t in Tuples(last) {
      var s, n :| s in last && n in last[s] && t == LabelValues(s, last[s][n]);
      assert s == scaleSet && n in current;
      var w :| w in workers && w.name == n;
      assert Records(current[w.name], w, workers, reserves);
    }
    if exists w :: w in workers && MatchesLabels(w.labels, labels) && w !in Candidates(workers, labels, reserves)
        && AutoSize.Exclusion(w, workers, reserves).Some?
        && t == [scaleSet, w.name, LabelOf(w.labels, PIN_LABEL_KEY),
                 ReasonText(AutoSize.Exclusion(w, workers, reserves).value)] {
      var w :| w in workers && MatchesLabels(w.labels, labels) && w !in Candidates(workers, labels, reserves)
        && AutoSize.Exclusion(w, workers, reserves).Some?
        && t == [scaleSet, w.name, LabelOf(w.labels, PIN_LABEL_KEY),
                 ReasonText(AutoSize.Exclusion(w, workers, reserves).value)];
      assert Records(current[w.name], w, workers, reserves);
      TupleOf(last, scaleSet, w.name);
    }
  }

  lemma PresentIff(workers: seq<Worker>, n: string)
    ensures n in NameSet(workers) <==> exists i :: 0 <= i < |workers| && workers[i].name == n
  {
    if exists i :: 0 <= i < |workers| && workers[i].name == n {
      var i :| 0 <= i < |workers| && workers[i].name == n;
      assert workers[i] in workers;
    }
  }

  // ---- When the comparison is exact ---------------------------------------------

  ghost predicate PlainNames(names: seq<string>) {
    NoneEmpty(names) && AllFree(names, ',')
  }

  /** No other holder's name is empty or holds a comma. */
  ghost predicate PlainMap(m: map<string, Exclusion>) {
    forall n :: n in m ==> m[n].worker == n && PlainNames(m[n].sharedWith)
  }

  ghost predicate PlainWorkers(workers: seq<Worker>) {
    forall w :: w in workers ==> w.name != "" && ',' !in w.name
  }

  /** For names without commas, the comparison is equality of the exclusions. */
  lemma SameExclusionIff(a: Exclusion, b: Exclusion)
    requires a.worker == b.worker && PlainNames(a.sharedWith) && PlainNames(b.sharedWith)
    ensures SameExclusion(a, b) <==> a == b
  {
    if SameExclusion(a, b) {
      JoinInjectiveAnyLength(a.sharedWith, b.sharedWith, ',');
    }
  }

  /** One holder named with a comma and two without read the same, and the change goes unreported. */
  lemma CommaHidesAChange(ex: Exclusion, x: string, y: string)
    ensures var a, b := ex.(sharedWith := [x + "," + y]), ex.(sharedWith := [x, y]);
      a != b && SameExclusion(a, b)
  {
    JoinTwo(x, y, ',');
  }

  /** The workers excluded now whose exclusion is not the previous tick's. */
  function Differing(prev: map<string, Exclusion>, current: map<string, Exclusion>): set<string> {
    set n | n in current && !(n in prev && prev[n] == current[n])
  }

  lemma SharersArePlain(w: Worker, workers: seq<Worker>)
    requires PlainWorkers(workers)
    ensures PlainNames(NamesOf(OtherHolders(w, workers)))
  {
    var others := OtherHolders(w, workers);
    forall i | 0 <= i < |others|
      ensures others[i] in workers
    {
      FilterMember((x: Worker) => x.name != w.name && PinIdentity(x) == PinIdentity(w), workers, others[i]);
    }
  }

  lemma {:induction false} ExclusionsArePlain(workers: seq<Worker>, n: nat, labels: Labels, reserves: Reserves)
    requires PlainWorkers(workers) && n <= |workers|
    ensures forall ex :: ex in ExclusionsOf(workers, n, labels, reserves) ==> PlainNames(ex.sharedWith)
  {
    if n > 0 {
      ExclusionsArePlain(workers, n - 1, labels, reserves);
      SharersArePlain(workers[n - 1], workers);
    }
  }

  /** The warnings are the differences, as far as names are plain; and plain names leave a plain map behind. */
  ghost predicate ExactIfPlain(prev: map<string, Exclusion>, workers: seq<Worker>, warned: set<string>,
                               current: map<string, Exclusion>) {
    PlainWorkers(workers) ==> PlainMap(current) && (PlainMap(prev) ==> warned == Differing(prev, current))
  }

  /**
   Tick after tick, while no worker's name is empty or holds a comma, the
   warnings due are for exactly the workers whose exclusion is not the previous
   tick's, and what is stored for the next tick keeps them so.
   */
  lemma WarningsAreExact(prev: map<string, Exclusion>, workers: seq<Worker>, labels: Labels, reserves: Reserves)
    ensures var current := CurrentOf(workers, labels, reserves);
      ExactIfPlain(prev, workers, Changed(prev, current), current)
  {
    var current := CurrentOf(workers, labels, reserves);
    if !PlainWorkers(workers) {
      return;
    }
    ExclusionsArePlain(workers, |workers|, labels, reserves);
    ByWorkerFiles(ExclusionsOf(workers, |workers|, labels, reserves));
    if PlainMap(prev) {
      forall n | n in current && n in prev
        ensures SameExclusion(prev[n], current[n]) <==> prev[n] == current[n]
      {
        SameExclusionIff(prev[n], current[n]);
      }
    }
  }

  // ---- Tuples, one exclusion at a time -------------------------------------------

  lemma TupleOf(last: Observed, s: string, n: string)
    requires s in last && n in last[s]
    ensures LabelValues(s, last[s][n]) in Tuples(last)
  {
  }

  /** A different worker's tuple is a different tuple, and so is a different scale set's. */
  lemma TuplesDelete(last: Observed, scaleSet: string, m: map<string, Exclusion>, name: string)
    requires Filed(m) && name in m
    ensures Tuples(last[scaleSet := m - {name}]) == Tuples(last[scaleSet := m]) - {LabelValues(scaleSet, m[name])}
  {
    var full, less := last[scaleSet := m], last[scaleSet := m - {name}];
    var gone := LabelValues(scaleSet, m[name]);
    forall t | t in Tuples(less)
      ensures t in Tuples(full) && t != gone
    {
      var s, n :| s in less && n in less[s] && t == LabelValues(s, less[s][n]);
      TupleOf(full, s, n);
      assert gone[0] == scaleSet && gone[1] == name && t[0] == s && (s == scaleSet ==> t[1] == n);
    }
    forall t | t in Tuples(full) && t != gone
      ensures t in Tuples(less)
    {
      var s, n :| s in full && n in full[s] && t == LabelValues(s, full[s][n]);
      TupleOf(less, s, n);
    }
  }

  lemma TuplesInsert(last: Observed, scaleSet: string, m: map<string, Exclusion>, name: string, ex: Exclusion)
    requires name !in m
    ensures Tuples(last[scaleSet := m[name := ex]]) == Tuples(last[scaleSet := m]) + {LabelValues(scaleSet, ex)}
  {
    var less, full := last[scaleSet := m], last[scaleSet := m[name := ex]];
    forall t | t in Tuples(full)
      ensures t in Tuples(less) + {LabelValues(scaleSet, ex)}
    {
      var s, n :| s in full && n in full[s] && t == LabelValues(s, full[s][n]);
      if s != scaleSet || n != name {
        TupleOf(less, s, n);
      }
    }
    TupleOf(full, scaleSet, name);
    forall t | t in Tuples(less)
      ensures t in Tuples(full)
    {
      var s, n :| s in less && n in less[s] && t == LabelValues(s, less[s][n]);
      TupleOf(full, s, n);
    }
  }

  lemma TuplesMove(last: Observed, scaleSet: string, m: map<string, Exclusion>, name: string, ex: Exclusion)
    requires Filed(m) && name in m
    ensures Tuples(last[scaleSet := m[name := ex]])
         == Tuples(last[scaleSet := m]) - {LabelValues(scaleSet, m[name])} + {LabelValues(scaleSet, ex)}
  {
    TuplesDelete(last, scaleSet, m, name);
    TuplesInsert(last, scaleSet, m - {name}, name, ex);
    assert (m - {name})[name := ex] == m[name := ex];
  }

  /** A scale set never seen before is one with nothing excluded. */
  lemma TuplesNone(last: Observed, scaleSet: string)
    ensures Tuples(last[scaleSet := PrevOf(last, scaleSet)]) == Tuples(last)
  {
    var last' := last[scaleSet := PrevOf(last, scaleSet)];
    if scaleSet in last {
      assert last' == last;
    } else {
      forall t | t in Tuples(last)
        ensures t in Tuples(last')
      {
        var s, n :| s in last && n in last[s] && t == LabelValues(s, last[s][n]);
        TupleOf(last', s, n);
      }
      forall t | t in Tuples(last')
        ensures t in Tuples(last)
      {
        var s, n :| s in last' && n in last'[s] && t == LabelValues(s, last'[s][n]);
        TupleOf(last, s, n);
      }
    }
  }

  // ---- The gauge, one exclusion at a time ----------------------------------------

  /** The gauge after one worker's old series, if any, is deleted and the new one set. */
  function Moved(series: Gauge, was: Option<seq<string>>, t: seq<string>): Gauge {
    Updated(if was.Some? then Removed(series, was.value) else series, t, 1.0)
  }

  lemma MovedShows(series: Gauge, tuples: set<seq<string>>, was: Option<seq<string>>, t: seq<string>)
    requires Shows(series, 4, tuples)
    requires |t| == 4 && (was.Some? ==> |was.value| == 4)
    ensures Shows(Moved(series, was, t), 4, tuples - (if was.Some? then {was.value} else {}) + {t})
  {
    if was.Some? {
      DeleteShows(series, 4, tuples, was.value);
      SetShows(Removed(series, was.value), 4, tuples - {was.value}, t);
    } else {
      SetShows(series, 4, tuples, t);
      assert tuples - {} == tuples;
    }
  }

  /** An unchanged exclusion has an unchanged series. */
  lemma SameRow(scaleSet: string, a: Exclusion, b: Exclusion)
    requires a.worker == b.worker && SameExclusion(a, b)
    ensures LabelValues(scaleSet, a) == LabelValues(scaleSet, b)
  {
  }

  // ---- The two loops as steps ---------------------------------------------------

  /** One currently excluded worker's turn. */
  function ReportOne(series: Gauge, scaleSet: string, prev: map<string, Exclusion>, ex: Exclusion)
    : Gauge
  {
    var name := ex.worker;
    if name in prev && SameExclusion(prev[name], ex) then series
    else
      var was := if name in prev then Some(LabelValues(scaleSet, prev[name])) else None;
      Moved(series, was, LabelValues(scaleSet, ex))
  }

  function ReportAll(series: Gauge, scaleSet: string, prev: map<string, Exclusion>,
                     current: map<string, Exclusion>, names: seq<string>): Gauge
    requires forall n :: n in names ==> n in current
  {
    if |names| == 0 then series
    else
      var k := |names| - 1;
      ReportOne(ReportAll(series, scaleSet, prev, current, names[..k]), scaleSet, prev, current[names[k]])
  }

  /** One previously excluded worker's turn. */
  function ClearOne(series: Gauge, scaleSet: string, was: Exclusion, still: bool): Gauge {
    if still then series else Removed(series, LabelValues(scaleSet, was))
  }

  function ClearAll(series: Gauge, scaleSet: string, prev: map<string, Exclusion>,
                    current: map<string, Exclusion>, names: seq<string>): Gauge
    requires forall n :: n in names ==> n in prev
  {
    if |names| == 0 then series
    else
      var k := |names| - 1;
      ClearOne(ClearAll(series, scaleSet, prev, current, names[..k]), scaleSet, prev[names[k]], names[k] in current)
  }

  /** What is shown once the first loop has handled `names`. */
  function Advance(prev: map<string, Exclusion>, current: map<string, Exclusion>, names: seq<string>)
    : map<string, Exclusion>
    requires forall n :: n in names ==> n in current
  {
    if |names| == 0 then prev
    else
      var k := |names| - 1;
      Advance(prev, current, names[..k])[names[k] := current[names[k]]]
  }

  /** What is shown once the second loop has handled `names`. */
  function Retract(m: map<string, Exclusion>, current: map<string, Exclusion>, names: seq<string>)
    : map<string, Exclusion>
  {
    if |names| == 0 then m
    else
      var k := |names| - 1;
      var rest := Retract(m, current, names[..k]);
      if names[k] in current then rest else rest - {names[k]}
  }

  ghost predicate Once(names: seq<string>) {
    forall i, j :: 0 <= i < j < |names| ==> names[i] != names[j]
  }

  lemma {:induction false} AdvanceAt(prev: map<string, Exclusion>, current: map<string, Exclusion>, names: seq<string>,
                                     n: string)
    requires forall n :: n in names ==> n in current
    ensures n in Advance(prev, current, names) <==> n in names || n in prev
    ensures n in names ==> Advance(prev, current, names)[n] == current[n]
    ensures n !in names && n in prev ==> Advance(prev, current, names)[n] == prev[n]
  {
    if |names| > 0 {
      var k := |names| - 1;
      AdvanceAt(prev, current, names[..k], n);
      assert names == names[..k] + [names[k]];
    }
  }

  lemma {:induction false} RetractAt(m: map<string, Exclusion>, current: map<string, Exclusion>, names: seq<string>,
                                     n: string)
    ensures n in Retract(m, current, names) <==> n in m && (n in current || n !in names)
    ensures n in Retract(m, current, names) ==> Retract(m, current, names)[n] == m[n]
  {
    if |names| > 0 {
      var k := |names| - 1;
      RetractAt(m, current, names[..k], n);
      assert names == names[..k] + [names[k]];
    }
  }

  lemma AdvanceFiled(prev: map<string, Exclusion>, current: map<string, Exclusion>, names: seq<string>)
    requires Filed(prev) && Filed(current) && forall n :: n in names ==> n in current
    ensures Filed(Advance(prev, current, names))
  {
    forall n | n in Advance(prev, current, names)
      ensures Advance(prev, current, names)[n].worker == n
    {
      AdvanceAt(prev, current, names, n);
    }
  }

  /** The first loop's effect on the tuples shown. */
  function Reported(tuples: set<seq<string>>, scaleSet: string, prev: map<string, Exclusion>,
                    current: map<string, Exclusion>, names: seq<string>): set<seq<string>>
    requires forall n :: n in names ==> n in current
  {
    if |names| == 0 then tuples
    else
      var name := names[|names| - 1];
      Reported(tuples, scaleSet, prev, current, names[..|names| - 1])
      - (if name in prev then {LabelValues(scaleSet, prev[name])} else {}) + {LabelValues(scaleSet, current[name])}
  }

  /** The second loop's. */
  function Cleared(tuples: set<seq<string>>, scaleSet: string, prev: map<string, Exclusion>,
                   current: map<string, Exclusion>, names: seq<string>): set<seq<string>>
    requires forall n :: n in names ==> n in prev
  {
    if |names| == 0 then tuples
    else
      var name := names[|names| - 1];
      Cleared(tuples, scaleSet, prev, current, names[..|names| - 1])
      - if name in current then {} else {LabelValues(scaleSet, prev[name])}
  }

  lemma {:induction false} ReportAllShows(series: Gauge, tuples: set<seq<string>>, scaleSet: string,
                                          prev: map<string, Exclusion>, current: map<string, Exclusion>,
                                          names: seq<string>)
    requires Filed(prev) && Filed(current)
    requires Once(names) && forall n :: n in names ==> n in current
    requires forall n :: n in names && n in prev ==> LabelValues(scaleSet, prev[n]) in tuples
    requires Shows(series, 4, tuples)
    ensures Shows(ReportAll(series, scaleSet, prev, current, names), 4,
                  Reported(tuples, scaleSet, prev, current, names))
    ensures forall n :: n in prev && n !in names && LabelValues(scaleSet, prev[n]) in tuples ==>
      LabelValues(scaleSet, prev[n]) in Reported(tuples, scaleSet, prev, current, names)
  {
    if |names| > 0 {
      var k := |names| - 1;
      var name, init := names[k], names[..k];
      ReportAllShows(series, tuples, scaleSet, prev, current, init);
      var t, shown := LabelValues(scaleSet, current[name]), Reported(tuples, scaleSet, prev, current, init);
      var before := ReportAll(series, scaleSet, prev, current, init);
      if name in prev {
        var was := LabelValues(scaleSet, prev[name]);
        if SameExclusion(prev[name], current[name]) {
          SameRow(scaleSet, prev[name], current[name]);
          assert shown - {was} + {t} == shown;
        } else {
          MovedShows(before, shown, Some(was), t);
        }
      } else {
        MovedShows(before, shown, None, t);
      }
    }
  }

  lemma {:induction false} ClearAllShows(series: Gauge, tuples: set<seq<string>>, scaleSet: string,
                                         prev: map<string, Exclusion>, current: map<string, Exclusion>,
                                         names: seq<string>)
    requires forall n :: n in names ==> n in prev
    requires Shows(series, 4, tuples)
    ensures Shows(ClearAll(series, scaleSet, prev, current, names), 4,
                  Cleared(tuples, scaleSet, prev, current, names))
  {
    if |names| > 0 {
      var k := |names| - 1;
      var name, init := names[k], names[..k];
      ClearAllShows(series, tuples, scaleSet, prev, current, init);
      var shown := Cleared(tuples, scaleSet, prev, current, init);
      if name in current {
        assert shown - {} == shown;
      } else {
        DeleteShows(ClearAll(series, scaleSet, prev, current, init), 4, shown, LabelValues(scaleSet, prev[name]));
      }
    }
  }

  lemma {:induction false} ReportedIsTuples(last: Observed, scaleSet: string, prev: map<string, Exclusion>,
                                            current: map<string, Exclusion>, names: seq<string>)
    requires Filed(prev) && Filed(current) && Once(names) && forall n :: n in names ==> n in current
    ensures Reported(Tuples(last[scaleSet := prev]), scaleSet, prev, current, names)
         == Tuples(last[scaleSet := Advance(prev, current, names)])
  {
    if |names| > 0 {
      var k := |names| - 1;
      var name, init := names[k], names[..k];
      var shown := Advance(prev, current, init);
      ReportedIsTuples(last, scaleSet, prev, current, init);
      AdvanceFiled(prev, current, init);
      AdvanceAt(prev, current, init, name);
      if name in prev {
        TuplesMove(last, scaleSet, shown, name, current[name]);
      } else {
        TuplesInsert(last, scaleSet, shown, name, current[name]);
        assert Tuples(last[scaleSet := shown]) - {} == Tuples(last[scaleSet := shown]);
      }
    }
  }

  lemma {:induction false} ClearedIsTuples(last: Observed, scaleSet: string, prev: map<string, Exclusion>,
                                           current: map<string, Exclusion>, shown: map<string, Exclusion>,
                                           names: seq<string>)
    requires Filed(shown) && Once(names) && forall n :: n in names ==> n in prev && n in shown
    requires forall n :: n in names && n !in current ==> shown[n] == prev[n]
    ensures Cleared(Tuples(last[scaleSet := shown]), scaleSet, prev, current, names)
         == Tuples(last[scaleSet := Retract(shown, current, names)])
  {
    if |names| > 0 {
      var k := |names| - 1;
      var name, init := names[k], names[..k];
      var rest := Retract(shown, current, init);
      ClearedIsTuples(last, scaleSet, prev, current, shown, init);
      if name in current {
        assert Tuples(last[scaleSet := rest]) - {} == Tuples(last[scaleSet := rest]);
      } else {
        RetractAt(shown, current, init, name);
        forall n | n in rest
          ensures rest[n].worker == n
        {
          RetractAt(shown, current, init, n);
        }
        TuplesDelete(last, scaleSet, rest, name);
      }
    }
  }

  /** Both loops over all their keys leave exactly the new exclusions. */
  lemma TickLeavesCurrent(prev: map<string, Exclusion>, current: map<string, Exclusion>,
                          names: seq<string>, gone: seq<string>)
    requires forall n :: n in names <==> n in current
    requires forall n :: n in gone <==> n in prev
    ensures Retract(Advance(prev, current, names), current, gone) == current
  {
    var end := Retract(Advance(prev, current, names), current, gone);
    forall n
      ensures n in end <==> n in current
      ensures n in end ==> end[n] == current[n]
    {
      AdvanceAt(prev, current, names, n);
      RetractAt(Advance(prev, current, names), current, gone, n);
    }
  }

  lemma TuplesAfterTick(last: Observed, scaleSet: string, current: map<string, Exclusion>,
                        names: seq<string>, gone: seq<string>)
    requires Filed(PrevOf(last, scaleSet)) && Filed(current)
    requires Once(names) && forall n :: n in names <==> n in current
    requires Once(gone) && forall n :: n in gone <==> n in PrevOf(last, scaleSet)
    ensures var prev := PrevOf(last, scaleSet);
      Cleared(Reported(Tuples(last), scaleSet, prev, current, names), scaleSet, prev, current, gone)
      == Tuples(last[scaleSet := current])
  {
    var prev := PrevOf(last, scaleSet);
    var shown := Advance(prev, current, names);
    TuplesNone(last, scaleSet);
    ReportedIsTuples(last, scaleSet, prev, current, names);
    AdvanceFiled(prev, current, names);
    forall n | n in gone
      ensures n in shown && (n !in current ==> shown[n] == prev[n])
    {
      AdvanceAt(prev, current, names, n);
    }
    ClearedIsTuples(last, scaleSet, prev, current, shown, gone);
    TickLeavesCurrent(prev, current, names, gone);
  }

  /** The gauge after one scale set's tick shows what a rebuild would. */
  lemma TickRebuilds(series: Gauge, last: Observed, scaleSet: string, current: map<string, Exclusion>,
                     names: seq<string>, gone: seq<string>)
    requires AllFiled(last) && Shows(series, 4, Tuples(last)) && Filed(current)
    requires Once(names) && forall n :: n in names <==> n in current
    requires Once(gone) && forall n :: n in gone <==> n in PrevOf(last, scaleSet)
    ensures AllFiled(last[scaleSet := current])
    ensures var prev := PrevOf(last, scaleSet);
      Shows(ClearAll(ReportAll(series, scaleSet, prev, current, names), scaleSet, prev, current, gone), 4,
            Tuples(last[scaleSet := current]))
  {
    var prev := PrevOf(last, scaleSet);
    forall n | n in prev
      ensures LabelValues(scaleSet, prev[n]) in Tuples(last)
    {
      TupleOf(last, scaleSet, n);
    }
    ReportAllShows(series, Tuples(last), scaleSet, prev, current, names);
    ClearAllShows(ReportAll(series, scaleSet, prev, current, names),
                  Reported(Tuples(last), scaleSet, prev, current, names), scaleSet, prev, current, gone);
    TuplesAfterTick(last, scaleSet, current, names, gone);
  }

  /** Each key once; the source sorts them so its log order is stable. */
  method KeysOf(m: map<string, Exclusion>) returns (keys: seq<string>)
    ensures Once(keys) && forall n :: n in keys <==> n in m
  {
    keys := [];
    var todo := m.Keys;
    while todo != {}
      invariant todo <= m.Keys && Once(keys)
      invariant forall n :: n in keys <==> n in m.Keys - todo
      decreases todo
    {
      var name :| name in todo;
      assert name !in keys;
      keys := keys + [name];
      todo := todo - {name};
    }
  }

  class EligibilityMonitor {
    const excluded: GaugeVec
    const eligible: GaugeVec
    var last: Observed

    /** The exclusion gauge is exactly what a rebuild from `last` would show. */
    ghost predicate Valid()
      reads this, excluded, eligible
    {
      && excluded != eligible && excluded.width == 4 && eligible.width == 1
      && AllFiled(last) && Shows(excluded.series, 4, Tuples(last))
    }

    constructor ()
      ensures Valid() && last == map[] && fresh(excluded) && fresh(eligible)
    {
      excluded := new GaugeVec(4);
      eligible := new GaugeVec(1);
      last := map[];
    }

    /** One tick for one scale set; the three sets are the log lines it writes. */
    method Observe(scaleSet: string, workers: seq<Worker>, labels: Labels, reserves: Reserves)
      returns (warned: set<string>, recovered: set<string>, offline: set<string>)
      requires Valid()
      modifies this, excluded, eligible
      ensures Valid()
      ensures var prev, current := PrevOf(old(last), scaleSet), CurrentOf(workers, labels, reserves);
        && last == old(last)[scaleSet := current]
        && warned == Changed(prev, current)
        && ExactIfPlain(prev, workers, warned, current)
        && (UniqueNames(workers) ==> FilesWorkers(current, workers, labels, reserves))
        && recovered == (prev.Keys - current.Keys) * NameSet(workers)
        && offline == prev.Keys - current.Keys - NameSet(workers)
      ensures eligible.series == Updated(old(eligible.series), [scaleSet],
                                         |Candidates(workers, labels, reserves)| as real)
    {
      var current := Evaluate(workers, labels, reserves);
      CurrentIsFiled(workers, labels, reserves);
      WarningsAreExact(PrevOf(last, scaleSet), workers, labels, reserves);
      CurrentFilesWorkers(workers, labels, reserves);
      var prev := PrevOf(last, scaleSet);
      var names := KeysOf(current);
      var gone := KeysOf(prev);
      TickRebuilds(excluded.series, last, scaleSet, current, names, gone);
      warned := ReportCurrent(scaleSet, prev, current, names);
      recovered, offline := ClearGone(scaleSet, prev, current, gone, NameSet(workers));
      last := last[scaleSet := current];
      var candidates := AutoSizeCandidates(workers, labels, reserves);
      eligible.Set(|candidates| as real, [scaleSet]);
    }

    /** The loop over what is excluded now. */
    method ReportCurrent(scaleSet: string, prev: map<string, Exclusion>, current: map<string, Exclusion>,
                         names: seq<string>)
      returns (warned: set<string>)
      requires excluded.width == 4
      requires forall n :: n in names <==> n in current
      requires forall n :: n in current ==> current[n].worker == n
      modifies excluded
      ensures excluded.series == ReportAll(old(excluded.series), scaleSet, prev, current, names)
      ensures warned == Changed(prev, current)
    {
      warned := {};
      for i := 0 to |names|
        invariant excluded.series == ReportAll(old(excluded.series), scaleSet, prev, current, names[..i])
        invariant forall n :: n in warned <==> n in names[..i] && n in Changed(prev, current)
      {
        var name := names[i];
        assert names[..i + 1][..i] == names[..i];
        var ex := current[name];
        if name in prev && SameExclusion(prev[name], ex) {
          continue;
        }
        if name in prev {
          excluded.Delete(LabelValues(scaleSet, prev[name]));
        }
        excluded.Set(1.0, LabelValues(scaleSet, ex));
        warned := warned + {name};
      }
      assert names[..|names|] == names;
    }

    /** The loop over what is no longer excluded. */
    method ClearGone(scaleSet: string, prev: map<string, Exclusion>, current: map<string, Exclusion>,
                     gone: seq<string>, present: set<string>)
      returns (recovered: set<string>, offline: set<string>)
      requires forall n :: n in gone <==> n in prev
      modifies excluded
      ensures excluded.series == ClearAll(old(excluded.series), scaleSet, prev, current, gone)
      ensures recovered == (prev.Keys - current.Keys) * present
      ensures offline == prev.Keys - current.Keys - present
    {
      recovered, offline := {}, {};
      for i := 0 to |gone|
        invariant excluded.series == ClearAll(old(excluded.series), scaleSet, prev, current, gone[..i])
        invariant forall n :: n in recovered <==> n in gone[..i] && n !in current && n in present
        invariant forall n :: n in offline <==> n in gone[..i] && n !in current && n !in present
      {
        var name := gone[i];
        assert gone[..i + 1][..i] == gone[..i];
        if name in current {
          continue;
        }
        excluded.Delete(LabelValues(scaleSet, prev[name]));
        if name in present {
          recovered := recovered + {name};
        } else {
          offline := offline + {name};
        }
      }
      assert gone[..|gone|] == gone;
    }
  }
}
