/**
 Filtering and counting over sequences.  The bridge's loops all append the
 elements that pass a test, in input order; `Filter` is the function those
 loops are proved against, and `|Filter(p, s)|` is how the model counts.
 */
module Seqs {

  datatype Option<+T> = None | Some(value: T)

  function Filter<T>(keep: T -> bool, s: seq<T>): seq<T> {
    if |s| == 0 then []
    else
      var last := s[|s| - 1];
      Filter(keep, s[..|s| - 1]) + if keep(last) then [last] else []
  }

  lemma {:induction false} FilterMember<T>(keep: T -> bool, s: seq<T>, x: T)
    ensures x in Filter(keep, s) <==> x in s && keep(x)
  {
    if |s| == 0 {
    } else {
      FilterMember(keep, s[..|s| - 1], x);
      assert s == s[..|s| - 1] + [s[|s| - 1]];
    }
  }

  lemma FilterSnoc<T>(keep: T -> bool, s: seq<T>, x: T)
    ensures Filter(keep, s + [x]) == Filter(keep, s) + if keep(x) then [x] else []
  {
    assert (s + [x])[..|s|] == s;
  }

  lemma FilterStep<T>(keep: T -> bool, s: seq<T>, i: nat)
    requires i < |s|
    ensures Filter(keep, s[..i + 1]) == Filter(keep, s[..i]) + if keep(s[i]) then [s[i]] else []
  {
    assert s[..i + 1] == s[..i] + [s[i]];
    FilterSnoc(keep, s[..i], s[i]);
  }

  lemma {:induction false} FilterConcat<T>(keep: T -> bool, s: seq<T>, t: seq<T>)
    ensures Filter(keep, s + t) == Filter(keep, s) + Filter(keep, t)
  {
    if |t| == 0 {
      assert s + t == s;
    } else {
      var init, last := t[..|t| - 1], t[|t| - 1];
      FilterConcat(keep, s, init);
      assert s + t == (s + init) + [last];
      FilterSnoc(keep, s + init, last);
    }
  }

  lemma {:induction false} FilterAgree<T>(p: T -> bool, q: T -> bool, s: seq<T>)
    requires forall x :: x in s ==> p(x) == q(x)
    ensures Filter(p, s) == Filter(q, s)
  {
    if |s| == 0 {
    } else {
      FilterAgree(p, q, s[..|s| - 1]);
    }
  }

  lemma {:induction false} FilterAll<T>(keep: T -> bool, s: seq<T>)
    requires forall x :: x in s ==> keep(x)
    ensures Filter(keep, s) == s
  {
    if |s| == 0 {
    } else {
      var init, last := s[..|s| - 1], s[|s| - 1];
      assert s == init + [last];
      FilterAll(keep, init);
      assert keep(last);
    }
  }

  lemma {:induction false} FilterNone<T>(keep: T -> bool, s: seq<T>)
    requires forall x :: x in s ==> !keep(x)
    ensures Filter(keep, s) == []
  {
    if |s| == 0 {
    } else {
      FilterNone(keep, s[..|s| - 1]);
    }
  }

  lemma {:induction false} FilterNested<T>(p: T -> bool, q: T -> bool, both: T -> bool, s: seq<T>)
    requires forall x :: both(x) == (p(x) && q(x))
    ensures Filter(q, Filter(p, s)) == Filter(both, s)
  {
    if |s| == 0 {
    } else {
      var init, last := s[..|s| - 1], s[|s| - 1];
      FilterNested(p, q, both, init);
      if p(last) {
        FilterSnoc(q, Filter(p, init), last);
      } else {
        assert Filter(p, s) == Filter(p, init);
      }
    }
  }

  lemma {:induction false} FilterKeepsDistinct<T, K(!new)>(keep: T -> bool, key: T -> K, s: seq<T>)
    requires forall i, j :: 0 <= i < j < |s| ==> key(s[i]) != key(s[j])
    ensures var out := Filter(keep, s);
      forall i, j :: 0 <= i < j < |out| ==> key(out[i]) != key(out[j])
  {
    if |s| == 0 {
    } else {
      var n := |s| - 1;
      var init := Filter(keep, s[..n]);
      FilterKeepsDistinct(keep, key, s[..n]);
      forall i | 0 <= i < |init|
        ensures key(init[i]) != key(s[n])
      {
        FilterMember(keep, s[..n], init[i]);
        var k :| 0 <= k < n && s[k] == init[i];
      }
    }
  }

  lemma {:induction false} FilterTwice<T>(p: T -> bool, q: T -> bool, s: seq<T>)
    ensures |Filter(q, Filter(p, s))| <= |Filter(q, s)|
  {
    if |s| == 0 {
    } else {
      var init, last := s[..|s| - 1], s[|s| - 1];
      FilterTwice(p, q, init);
      if p(last) {
        FilterSnoc(q, Filter(p, init), last);
      } else {
        assert Filter(p, s) == Filter(p, init);
      }
    }
  }

  /** A test and its negation split a count. */
  lemma {:induction false} FilterSplit<T>(p: T -> bool, q: T -> bool, r: T -> bool, s: seq<T>)
    requires forall x :: x in s ==> (p(x) <==> q(x) || r(x)) && !(q(x) && r(x))
    ensures |Filter(p, s)| == |Filter(q, s)| + |Filter(r, s)|
  {
    if |s| == 0 {
    } else {
      FilterSplit(p, q, r, s[..|s| - 1]);
    }
  }

  /** What passes one of two tests is counted by one or the other. */
  lemma {:induction false} FilterUnion<T>(p: T -> bool, q: T -> bool, r: T -> bool, s: seq<T>)
    requires forall x :: x in s && p(x) ==> q(x) || r(x)
    ensures |Filter(p, s)| <= |Filter(q, s)| + |Filter(r, s)|
  {
    if |s| == 0 {
    } else {
      FilterUnion(p, q, r, s[..|s| - 1]);
    }
  }

  /** A duplicate-free list of positions that pass the test is a lower bound on the count. */
  lemma {:induction false} PositionsBound<T>(keep: T -> bool, s: seq<T>, at: set<nat>)
    requires forall i :: i in at ==> i < |s| && keep(s[i])
    ensures |at| <= |Filter(keep, s)|
  {
    if |s| == 0 {
      assert at == {};
    } else {
      var n := |s| - 1;
      var rest := at - {n};
      PositionsBound(keep, s[..n], rest);
      if n in at {
        assert at == rest + {n};
      } else {
        assert at == rest;
      }
    }
  }

  function Positions(at: seq<nat>): set<nat> {
    set p | p in at
  }

  lemma {:induction false} DistinctPositions(at: seq<nat>)
    requires forall i, j :: 0 <= i < j < |at| ==> at[i] != at[j]
    ensures |Positions(at)| == |at|
  {
    if |at| == 0 {
    } else {
      var init, last := at[..|at| - 1], at[|at| - 1];
      DistinctPositions(init);
      assert last !in Positions(init);
      assert at == init + [last];
      assert Positions(at) == Positions(init) + {last};
    }
  }

  /** Elements found at given positions under distinct keys bound the count of what passes the test. */
  lemma DistinctKeysBound<T, K(!new)>(keep: T -> bool, key: T -> K, s: seq<T>, keys: seq<K>, at: seq<nat>)
    requires |at| == |keys|
    requires forall i :: 0 <= i < |at| ==> at[i] < |s| && keep(s[at[i]]) && key(s[at[i]]) == keys[i]
    requires forall i, j :: 0 <= i < j < |keys| ==> keys[i] != keys[j]
    ensures |keys| <= |Filter(keep, s)|
  {
    forall i, j | 0 <= i < j < |at|
      ensures at[i] != at[j]
    {
      assert keys[i] != keys[j];
    }
    DistinctPositions(at);
    PositionsBound(keep, s, Positions(at));
  }

  /** Two positions that pass the test make the count at least two, and one makes it at least one. */
  lemma CountTwo<T>(keep: T -> bool, s: seq<T>, i: nat, j: nat)
    requires i < |s| && j < |s| && keep(s[i]) && keep(s[j])
    ensures |Filter(keep, s)| >= if i == j then 1 else 2
  {
    PositionsBound(keep, s, {i, j});
    if i != j {
      assert |{i, j}| == 2;
    }
  }

  /** A count of at most one, reached at position `i`, rules out every other position. */
  lemma CountOne<T>(keep: T -> bool, s: seq<T>, i: nat)
    requires i < |s| && keep(s[i]) && |Filter(keep, s)| <= 1
    ensures forall j :: 0 <= j < |s| && keep(s[j]) ==> j == i
  {
    forall j | 0 <= j < |s| && keep(s[j])
      ensures j == i
    {
      CountTwo(keep, s, i, j);
    }
  }

  function Sum(s: seq<nat>): nat {
    if |s| == 0 then 0 else Sum(s[..|s| - 1]) + s[|s| - 1]
  }

  lemma SumStep(s: seq<nat>, i: nat)
    requires i < |s|
    ensures Sum(s[..i + 1]) == Sum(s[..i]) + s[i]
  {
    assert s[..i + 1][..i] == s[..i];
  }

  lemma {:induction false} SumUpdate(s: seq<nat>, i: nat, v: nat)
    requires i < |s|
    ensures Sum(s[i := v]) == Sum(s) - s[i] + v
  {
    var n := |s| - 1;
    if i == n {
      assert s[i := v][..n] == s[..n];
    } else {
      assert s[i := v][..n] == s[..n][i := v];
      SumUpdate(s[..n], i, v);
    }
  }
}
