/**
 The gauge store behind the exclusion metric.  Models metrics/metrics.go:30-156.
 A series key is bytes: encoded text, with the byte 0xff between the values.
 That byte is no part of any encoded text, so it is a symbol of its own here.
 */
module Metrics {

  datatype Symbol = Rune(c: char) | Byte0xFF

  function Join<T>(parts: seq<seq<T>>, sep: T): seq<T> {
    if |parts| == 0 then []
    else if |parts| == 1 then parts[0]
    else parts[0] + [sep] + Join(parts[1..], sep)
  }

  function Encoded(text: string): seq<Symbol> {
    seq(|text|, i requires 0 <= i < |text| => Rune(text[i]))
  }

  function EncodedAll(labelValues: seq<string>): seq<seq<Symbol>> {
    seq(|labelValues|, i requires 0 <= i < |labelValues| => Encoded(labelValues[i]))
  }

  function SeriesKey(labelValues: seq<string>): seq<Symbol> {
    Join(EncodedAll(labelValues), Byte0xFF)
  }

  ghost predicate AllFree<T>(parts: seq<seq<T>>, sep: T) {
    forall i :: 0 <= i < |parts| ==> sep !in parts[i]
  }

  lemma FirstSeparator<T>(a: seq<T>, b: seq<T>, x: seq<T>, y: seq<T>, sep: T)
    requires sep !in a && sep !in b && a + [sep] + x == b + [sep] + y
    ensures a == b && x == y
  {
    var s, t := a + [sep] + x, b + [sep] + y;
    assert forall i :: 0 <= i < |a| ==> s[i] == a[i];
    assert forall i :: 0 <= i < |b| ==> t[i] == b[i];
    assert s[|a|] == sep && t[|b|] == sep;
    assert a == s[..|a|] && b == t[..|b|];
    assert x == s[|a| + 1..] && y == t[|b| + 1..];
  }

  /** Lists of one length never join to the same text, as long as no part holds the separator. */
  lemma {:induction false} JoinInjective<T>(a: seq<seq<T>>, b: seq<seq<T>>, sep: T)
    requires |a| == |b| && AllFree(a, sep) && AllFree(b, sep) && Join(a, sep) == Join(b, sep)
    ensures a == b
  {
    if |a| <= 1 {
    } else {
      FirstSeparator(a[0], b[0], Join(a[1..], sep), Join(b[1..], sep), sep);
      JoinInjective(a[1..], b[1..], sep);
      assert a == [a[0]] + a[1..] && b == [b[0]] + b[1..];
    }
  }

  lemma JoinTwo<T>(a: seq<T>, b: seq<T>, sep: T)
    ensures Join([a, b], sep) == a + [sep] + b
  {
    assert [a, b][1..] == [b];
  }

  /** With it, they can. */
  lemma SeparatorCollides<T>(x: seq<T>, y: seq<T>, z: seq<T>, sep: T)
    ensures var a, b := [x + [sep] + y, z], [x, y + [sep] + z];
      a != b && Join(a, sep) == Join(b, sep)
  {
    JoinTwo(x + [sep] + y, z, sep);
    JoinTwo(x, y + [sep] + z, sep);
    assert x + [sep] + y + [sep] + z == x + [sep] + (y + [sep] + z);
    assert |x + [sep] + y| > |x|;
  }

  ghost predicate NoneEmpty<T>(parts: seq<seq<T>>) {
    forall i :: 0 <= i < |parts| ==> parts[i] != []
  }

  /** Without empty parts the text gives back the length as well. */
  lemma {:induction false} JoinInjectiveAnyLength<T>(a: seq<seq<T>>, b: seq<seq<T>>, sep: T)
    requires AllFree(a, sep) && AllFree(b, sep) && NoneEmpty(a) && NoneEmpty(b)
    requires Join(a, sep) == Join(b, sep)
    ensures a == b
  {
    if |a| >= 2 && |b| >= 2 {
      FirstSeparator(a[0], b[0], Join(a[1..], sep), Join(b[1..], sep), sep);
      JoinInjectiveAnyLength(a[1..], b[1..], sep);
      assert a == [a[0]] + a[1..] && b == [b[0]] + b[1..];
    } else if |a| >= 2 {
      LongHoldsSeparator(a, sep);
    } else if |b| >= 2 {
      LongHoldsSeparator(b, sep);
    }
  }

  lemma LongHoldsSeparator<T>(parts: seq<seq<T>>, sep: T)
    requires |parts| >= 2
    ensures sep in Join(parts, sep)
  {
    assert Join(parts, sep)[|parts[0]|] == sep;
  }

  lemma EncodedInjective(a: string, b: string)
    requires Encoded(a) == Encoded(b)
    ensures a == b
  {
    assert |a| == |Encoded(a)| && |b| == |Encoded(b)|;
    forall i | 0 <= i < |a|
      ensures a[i] == b[i]
    {
      assert Encoded(a)[i] == Rune(a[i]) && Encoded(b)[i] == Rune(b[i]);
    }
  }

  /** Distinct tuples of one width never share a series: text holds no separator. */
  lemma SeriesKeyInjective(a: seq<string>, b: seq<string>)
    requires |a| == |b| && SeriesKey(a) == SeriesKey(b)
    ensures a == b
  {
    JoinInjective(EncodedAll(a), EncodedAll(b), Byte0xFF);
    forall i | 0 <= i < |a|
      ensures a[i] == b[i]
    {
      assert EncodedAll(a)[i] == Encoded(a[i]) && EncodedAll(b)[i] == Encoded(b[i]);
      EncodedInjective(a[i], b[i]);
    }
  }

  datatype Series = Series(labelValues: seq<string>, value: real)

  function Updated(series: map<seq<Symbol>, Series>, labelValues: seq<string>, value: real): map<seq<Symbol>, Series> {
    var key := SeriesKey(labelValues);
    series[key := if key in series then series[key].(value := value) else Series(labelValues, value)]
  }

  function Removed(series: map<seq<Symbol>, Series>, labelValues: seq<string>): map<seq<Symbol>, Series> {
    series - {SeriesKey(labelValues)}
  }

  class GaugeVec {
    const width: nat
    var series: map<seq<Symbol>, Series>

    constructor (width: nat)
      ensures this.width == width && series == map[]
    {
      this.width, series := width, map[];
    }

    /** A tuple of the wrong width makes the source panic. */
    method Set(value: real, labelValues: seq<string>)
      requires |labelValues| == width
      modifies this
      ensures series == Updated(old(series), labelValues, value)
    {
      var key := SeriesKey(labelValues);
      if key !in series {
        series := series[key := Series(labelValues, 0.0)];
      }
      series := series[key := series[key].(value := value)];
    }

    method Delete(labelValues: seq<string>)
      modifies this
      ensures series == Removed(old(series), labelValues)
    {
      series := series - {SeriesKey(labelValues)};
    }
  }

  // ---- What a gauge shows -----------------------------------------------------

  /** The series are exactly these tuples, each filed under its own key, at 1. */
  ghost predicate Shows(series: map<seq<Symbol>, Series>, width: nat, tuples: set<seq<string>>) {
    && (forall t :: t in tuples ==> |t| == width)
    && (forall t :: t in tuples ==> SeriesKey(t) in series && series[SeriesKey(t)] == Series(t, 1.0))
    && (forall k :: k in series ==> series[k].labelValues in tuples && SeriesKey(series[k].labelValues) == k)
  }

  /** Only one gauge shows given tuples, so keeping it up to date by differences and rebuilding it agree. */
  lemma ShowsDetermines(a: map<seq<Symbol>, Series>, b: map<seq<Symbol>, Series>, width: nat, tuples: set<seq<string>>)
    requires Shows(a, width, tuples) && Shows(b, width, tuples)
    ensures a == b
  {
    forall k
      ensures k in a <==> k in b
      ensures k in a ==> a[k] == b[k]
    {
      if k in a {
        assert a[k].labelValues in tuples;
      }
      if k in b {
        assert b[k].labelValues in tuples;
      }
    }
  }

  lemma SetShows(series: map<seq<Symbol>, Series>, width: nat, tuples: set<seq<string>>, t: seq<string>)
    requires Shows(series, width, tuples) && |t| == width
    ensures Shows(Updated(series, t, 1.0), width, tuples + {t})
  {
    var series' := Updated(series, t, 1.0);
    if SeriesKey(t) in series {
      SeriesKeyInjective(series[SeriesKey(t)].labelValues, t);
    }
    forall u | u in tuples + {t}
      ensures SeriesKey(u) in series' && series'[SeriesKey(u)] == Series(u, 1.0)
    {
      if SeriesKey(u) == SeriesKey(t) {
        SeriesKeyInjective(u, t);
      }
    }
  }

  lemma DeleteShows(series: map<seq<Symbol>, Series>, width: nat, tuples: set<seq<string>>, t: seq<string>)
    requires Shows(series, width, tuples) && |t| == width
    ensures Shows(Removed(series, t), width, tuples - {t})
  {
    var series' := Removed(series, t);
    forall u | u in tuples - {t}
      ensures SeriesKey(u) in series' && series'[SeriesKey(u)] == Series(u, 1.0)
    {
      if SeriesKey(u) == SeriesKey(t) {
        SeriesKeyInjective(u, t);
      }
    }
  }

  /** After a Set the tuple's series reads that value, new or not, under its own labels; no other series moves. */
  lemma SetReads(series: map<seq<Symbol>, Series>, t: seq<string>, value: real)
    ensures var key, after := SeriesKey(t), Updated(series, t, value);
      && key in after && after[key].value == value
      && after[key].labelValues == (if key in series then series[key].labelValues else t)
      && forall k :: k != key ==> (k in after <==> k in series) && (k in series ==> after[k] == series[k])
  {
  }

  /** After a Delete the tuple has no series; no other series moves. */
  lemma DeleteReads(series: map<seq<Symbol>, Series>, t: seq<string>)
    ensures var key, after := SeriesKey(t), Removed(series, t);
      && key !in after
      && forall k :: k != key ==> (k in after <==> k in series) && (k in series ==> after[k] == series[k])
  {
  }
}
