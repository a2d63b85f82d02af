/**
 What the bridge reads from Orchard: VM and worker records, label and resource
 maps, and the two ways a Go map read shows up in the code (a missing label
 reads as "", a missing resource as 0 or through the comma-ok form).
 */
module Orchard {
  import opened Seqs

  const TWO_63 := 0x8000_0000_0000_0000
  const TWO_64 := 0x1_0000_0000_0000_0000

  type uint64 = n: nat | n < TWO_64

  type Labels = map<string, string>

  /** Nanoseconds since an arbitrary epoch; `None` is Go's zero time. */
  type Timestamp = Option<int>

  datatype VMStatus = Creating | Running | Stopped | Failed | OtherStatus(text: string)

  datatype VM = VM(
    name: string,
    status: VMStatus,
    worker: string,
    labels: Labels,
    cpu: uint64,
    memory: uint64,
    createdAt: Timestamp)

  datatype Worker = Worker(
    name: string,
    labels: Labels,
    resources: map<string, uint64>,
    schedulingPaused: bool,
    lastSeen: Timestamp)

  function LabelOf(labels: Labels, key: string): string {
    if key in labels then labels[key] else ""
  }

  /** Every wanted label reads the same on the worker: the one label match the bridge uses everywhere. */
  predicate MatchesLabels(have: Labels, want: Labels) {
    forall k :: k in want ==> LabelOf(have, k) == want[k]
  }

  predicate Terminal(vm: VM) {
    vm.status == Stopped || vm.status == Failed
  }

  /** Go's `int(n)` of a uint64: the upper half of the range reads as negative. */
  function AsInt(n: uint64): int {
    if n < TWO_63 then n else n - TWO_64
  }

  function NameOf(w: Worker): string {
    w.name
  }

  ghost predicate UniqueNames(workers: seq<Worker>) {
    forall i, j :: 0 <= i < j < |workers| ==> NameOf(workers[i]) != NameOf(workers[j])
  }

  lemma NamesIdentify(workers: seq<Worker>, a: Worker, b: Worker)
    requires UniqueNames(workers) && a in workers && b in workers && a.name == b.name
    ensures a == b
  {
  }

  /** A wanted label is there with its value, or is wanted empty and not there. */
  lemma MatchesIff(have: Labels, want: Labels)
    ensures MatchesLabels(have, want) <==>
      forall k :: k in want ==> (k in have && have[k] == want[k]) || (k !in have && want[k] == "")
  {
    if MatchesLabels(have, want) {
      forall k | k in want
        ensures (k in have && have[k] == want[k]) || (k !in have && want[k] == "")
      {
        assert LabelOf(have, k) == want[k];
      }
    }
  }

  /** Matching is reflexive; an empty value keeps it from being transitive. */
  lemma MatchingIsNotTransitive(key: string, value: string)
    requires value != ""
    ensures var a, b, c: Labels := map[key := value], map[], map[key := ""];
      && MatchesLabels(a, a) && MatchesLabels(a, b) && MatchesLabels(b, c) && !MatchesLabels(a, c)
  {
    var a, c: Labels := map[key := value], map[key := ""];
    assert key in c && LabelOf(a, key) != c[key];
  }

  /** The conversion is the one of two's complement: the same number modulo 2 to the 64, in the signed range. */
  lemma AsIntWraps(n: uint64)
    ensures -TWO_63 <= AsInt(n) < TWO_63 && (AsInt(n) == n || AsInt(n) + TWO_64 == n)
  {
  }
}
