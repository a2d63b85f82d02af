/**
 The placement cursor.  Each AutoSize scale-up takes `start` from the cursor and
 advances it by the batch size, so batch after batch walks the free list round
 and round.  Models bridge/bridge.go:244-251.
 */
module Fairness {
  import opened Seqs

  /**
   The worker index a placement position rotates to.  Taking whole turns off one
   at a time keeps remainders out of every other proof.
   */
  function Slot(position: nat, n: nat): (slot: nat)
    requires n > 0
    ensures slot < n
  {
    if position < n then position else Slot(position - n, n)
  }

  /** It is the code's `position % n`. */
  lemma {:induction false} SlotIsRemainder(position: nat, n: nat)
    requires n > 0
    ensures Slot(position, n) == position % n
  {
    if position >= n {
      SlotIsRemainder(position - n, n);
      LessOneTurn(position, n);
    }
  }

  lemma LessOneTurn(position: nat, n: nat)
    requires position >= n > 0
    ensures (position - n) % n == position % n
  {
    var q, r := position / n, position % n;
    var q', r' := (position - n) / n, (position - n) % n;
    Distribute(n, q, q' + 1);
    Distribute(n, q', -1);
    Multiple(n, q - (q' + 1));
  }

  lemma Multiple(n: int, k: int)
    requires n > 0
    ensures k >= 1 ==> n * k >= n
    ensures k <= -1 ==> n * k <= -n
  {
  }

  lemma Distribute(n: int, a: int, b: int)
    ensures n * (a - b) == n * a - n * b
  {
  }

  /** One worker's turns come round every `n` positions. */
  lemma {:induction false} SlotAfter(a: nat, d: nat, n: nat)
    requires d < n
    ensures Slot(a + d, n) == if Slot(a, n) + d < n then Slot(a, n) + d else Slot(a, n) + d - n
  {
    if a >= n {
      SlotAfter(a - n, d, n);
    }
  }

  /** Positions less than a full turn apart never coincide. */
  lemma RotationDistinct(a: nat, b: nat, n: nat)
    requires a < b < a + n
    ensures Slot(a, n) != Slot(b, n)
  {
    SlotAfter(a, b - a, n);
  }

  // ---- Two windows of one list ------------------------------------------------

  /** How far ahead of position `a`'s worker position `b`'s worker stands, going round the list. */
  function Ahead(a: nat, b: nat, n: nat): (d: nat)
    requires n > 0
    ensures d < n
  {
    var p, q := Slot(a, n), Slot(b, n);
    if p <= q then q - p else q - p + n
  }

  /** No worker is picked both by the `k` placements from `a` and by the `l` placements from `b`. */
  ghost predicate Apart(a: nat, k: nat, b: nat, l: nat, n: nat)
    requires n > 0
  {
    forall p, q :: a <= p < a + k && b <= q < b + l ==> Slot(p, n) != Slot(q, n)
  }

  /** Two windows of one list are apart exactly when each ends before the other begins. */
  lemma ApartIff(a: nat, k: nat, b: nat, l: nat, n: nat)
    requires n > 0 && k > 0 && l > 0
    ensures Apart(a, k, b, l, n) <==> k <= Ahead(a, b, n) && l <= n - Ahead(a, b, n)
  {
    var d := Ahead(a, b, n);
    if k > d {
      SlotAfter(a, d, n);
      assert Slot(a + d, n) == Slot(b, n);
    } else if l > n - d {
      SlotAfter(b, n - d, n);
      assert Slot(b + (n - d), n) == Slot(a, n);
    } else {
      forall p, q | a <= p < a + k && b <= q < b + l
        ensures Slot(p, n) != Slot(q, n)
      {
        SlotAfter(a, p - a, n);
        SlotAfter(b, q - b, n);
      }
    }
  }

  /** A window that begins where another, of at most a full turn, was meant to end. */
  lemma NextWindow(a: nat, k: nat, taken: nat, l: nat, n: nat)
    requires 0 < k <= taken <= n && l > 0
    ensures Apart(a, k, a + taken, l, n) <==> l <= n - taken
  {
    ApartIff(a, k, a + taken, l, n);
    if taken < n {
      SlotAfter(a, taken, n);
    } else {
      assert Slot(a + n, n) == Slot(a, n);
    }
  }

  // ---- Batches ----------------------------------------------------------------

  /** Where one batch of `size` placements goes, from cursor `start`, over `n` workers. */
  function BatchIndices(start: nat, size: nat, n: nat): seq<int>
    requires n > 0
  {
    seq(size, i requires 0 <= i < size => Slot(start + i, n))
  }

  /** Where a run of batches goes, the cursor moving on by each batch's size. */
  function Placements(cursor: nat, sizes: seq<nat>, n: nat): seq<int>
    requires n > 0
    decreases |sizes|
  {
    if |sizes| == 0 then []
    else BatchIndices(cursor, sizes[0], n) + Placements(cursor + sizes[0], sizes[1..], n)
  }

  function Total(sizes: seq<nat>): nat {
    if |sizes| == 0 then 0 else sizes[0] + Total(sizes[1..])
  }

  /** However the placements are cut into batches, they walk the list in one unbroken rotation. */
  lemma {:induction false} BatchingDoesNotMatter(cursor: nat, sizes: seq<nat>, n: nat)
    requires n > 0
    ensures Placements(cursor, sizes, n) == BatchIndices(cursor, Total(sizes), n)
    decreases |sizes|
  {
    if |sizes| == 0 {
    } else {
      BatchingDoesNotMatter(cursor + sizes[0], sizes[1..], n);
    }
  }

  // ---- Counts -----------------------------------------------------------------

  /** How often worker `r` is picked in `len` consecutive placements starting at position `from`. */
  function Hits(from: nat, len: nat, n: nat, r: nat): nat
    requires n > 0
  {
    if len == 0 then 0 else Hits(from, len - 1, n, r) + if Slot(from + len - 1, n) == r then 1 else 0
  }

  lemma {:induction false} HitsSplit(from: nat, a: nat, b: nat, n: nat, r: nat)
    requires n > 0
    ensures Hits(from, a + b, n, r) == Hits(from, a, n, r) + Hits(from + a, b, n, r)
  {
    if b == 0 {
    } else {
      HitsSplit(from, a, b - 1, n, r);
    }
  }

  /** Less than a full turn reaches no worker twice. */
  lemma {:induction false} ShortWindow(from: nat, len: nat, n: nat, r: nat)
    requires len <= n && r < n
    ensures Hits(from, len, n, r) <= 1
    ensures Hits(from, len, n, r) == 1 ==> exists p :: from <= p < from + len && Slot(p, n) == r
    ensures Hits(from, len, n, r) == 0 ==> forall p :: from <= p < from + len ==> Slot(p, n) != r
  {
    if len == 0 {
    } else {
      ShortWindow(from, len - 1, n, r);
      if Slot(from + len - 1, n) == r {
        forall p | from <= p < from + len - 1
          ensures Slot(p, n) != r
        {
          RotationDistinct(p, from + len - 1, n);
        }
      }
    }
  }

  /** A full turn reaches every worker once. */
  lemma FullTurn(from: nat, n: nat, r: nat)
    requires r < n
    ensures Hits(from, n, n, r) == 1
  {
    ShortWindow(from, n, n, r);
    var a := Slot(from, n);
    SlotAfter(from, if a <= r then r - a else r - a + n, n);
  }

  /** Whole turns reach every worker equally often. */
  lemma {:induction false} WholeTurns(from: nat, m: nat, n: nat, len: nat, r: nat)
    requires r < n && len == m * n
    ensures Hits(from, len, n, r) == m
    decreases m
  {
    if m == 0 {
    } else {
      Distribute(n, m, 1);
      WholeTurns(from, m - 1, n, len - n, r);
      FullTurn(from + (len - n), n, r);
      HitsSplit(from, len - n, n, n, r);
    }
  }

  lemma WindowCount(from: nat, len: nat, n: nat, r: nat)
    requires r < n
    ensures Hits(from, len, n, r) == len / n || Hits(from, len, n, r) == len / n + 1
  {
    var m, rest := len / n, len % n;
    var whole := m * n;
    assert len == whole + rest;
    WholeTurns(from, m, n, whole, r);
    HitsSplit(from, whole, rest, n, r);
    ShortWindow(from + whole, rest, n, r);
  }

  /** In any window of placements, any two workers' counts differ by at most one. */
  lemma FairWindow(from: nat, len: nat, n: nat, r: nat, r': nat)
    requires r < n && r' < n
    ensures -1 <= Hits(from, len, n, r) - Hits(from, len, n, r') <= 1
  {
    WindowCount(from, len, n, r);
    WindowCount(from, len, n, r');
  }

  /** The count over a run of batches is the count over the rotation, so fairness holds of whole runs. */
  lemma {:induction false} HitsOfRotation(cursor: nat, len: nat, n: nat, r: nat)
    requires n > 0
    ensures |Filter((x: int) => x == r, BatchIndices(cursor, len, n))| == Hits(cursor, len, n, r)
  {
    var hit := (x: int) => x == r;
    if len == 0 {
    } else {
      HitsOfRotation(cursor, len - 1, n, r);
      var last := Slot(cursor + len - 1, n);
      assert BatchIndices(cursor, len, n) == BatchIndices(cursor, len - 1, n) + [last];
      FilterSnoc(hit, BatchIndices(cursor, len - 1, n), last);
    }
  }

  lemma FairRun(cursor: nat, sizes: seq<nat>, n: nat, r: nat, r': nat)
    requires r < n && r' < n
    ensures var ps := Placements(cursor, sizes, n);
      -1 <= |Filter((x: int) => x == r, ps)| - |Filter((x: int) => x == r', ps)| <= 1
  {
    BatchingDoesNotMatter(cursor, sizes, n);
    HitsOfRotation(cursor, Total(sizes), n, r);
    HitsOfRotation(cursor, Total(sizes), n, r');
    FairWindow(cursor, Total(sizes), n, r, r');
  }
}
