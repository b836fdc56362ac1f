/**
  `list.sort(key=len)` on a list of names: Python's sort is stable, so the
  result is ordered by length and names of equal length keep their
  relative order. Modelled by a stable insertion sort whose result is
  characterised by those two facts.
 */
module LengthSort {

  predicate SortedByLen(xs: seq<string>) {
    forall i, j :: 0 <= i < j < |xs| ==> |xs[i]| <= |xs[j]|
  }

  /** The names of length `n`, in their order in `xs`. */
  function OfLength(xs: seq<string>, n: nat): seq<string> {
    if xs == [] then []
    else (if |xs[0]| == n then [xs[0]] else []) + OfLength(xs[1..], n)
  }

  lemma {:induction false} OfLengthAppend(a: seq<string>, b: seq<string>, n: nat)
    ensures OfLength(a + b, n) == OfLength(a, n) + OfLength(b, n)
  {
    if a != [] {
      assert (a + b)[1..] == a[1..] + b;
      OfLengthAppend(a[1..], b, n);
    } else {
      assert a + b == b;
    }
  }

  lemma {:induction false} OfLengthNone(xs: seq<string>, n: nat)
    requires forall i :: 0 <= i < |xs| ==> |xs[i]| != n
    ensures OfLength(xs, n) == []
  {
    if xs != [] {
      OfLengthNone(xs[1..], n);
    }
  }

  /** Inserts `x` after every name that is not longer than it. */
  function InsertByLen(t: seq<string>, x: string): (r: seq<string>)
    ensures |r| == |t| + 1
  {
    if t == [] then [x]
    else if |t[0]| > |x| then [x] + t
    else [t[0]] + InsertByLen(t[1..], x)
  }

  /** Inserting into a sorted list keeps it sorted; the new head is `x` or
      the old head. */
  lemma {:induction false} InsertByLenSorted(t: seq<string>, x: string)
    requires SortedByLen(t)
    ensures SortedByLen(InsertByLen(t, x))
    ensures InsertByLen(t, x)[0] == x || InsertByLen(t, x)[0] == t[0]
  {
    if t != [] && |t[0]| <= |x| {
      var rest := InsertByLen(t[1..], x);
      InsertByLenSorted(t[1..], x);
      assert |t[0]| <= |rest[0]|;
      assert InsertByLen(t, x) == [t[0]] + rest;
    }
  }

  /** Inserting adds `x` and loses nothing. */
  lemma {:induction false} InsertByLenPermutes(t: seq<string>, x: string)
    ensures multiset(InsertByLen(t, x)) == multiset(t) + multiset{x}
  {
    if t != [] && |t[0]| <= |x| {
      var rest := InsertByLen(t[1..], x);
      InsertByLenPermutes(t[1..], x);
      assert InsertByLen(t, x) == [t[0]] + rest;
      assert t == [t[0]] + t[1..];
      assert multiset(t) == multiset([t[0]]) + multiset(t[1..]);
    }
  }

  lemma OfLengthOne(x: string, n: nat)
    ensures OfLength([x], n) == if |x| == n then [x] else []
  {
    assert [x][1..] == [];
  }

  lemma {:induction false} InsertByLenStable(t: seq<string>, x: string, n: nat)
    requires SortedByLen(t)
    ensures OfLength(InsertByLen(t, x), n) == OfLength(t, n) + (if |x| == n then [x] else [])
  {
    OfLengthOne(x, n);
    if t == [] {
      assert InsertByLen(t, x) == [x];
    } else if |t[0]| > |x| {
      assert InsertByLen(t, x) == [x] + t;
      OfLengthAppend([x], t, n);
      if |x| == n {
        assert forall i :: 0 <= i < |t| ==> |t[0]| <= |t[i]|;
        OfLengthNone(t, n);
      }
    } else {
      var rest := InsertByLen(t[1..], x);
      assert InsertByLen(t, x) == [t[0]] + rest;
      InsertByLenStable(t[1..], x, n);
      OfLengthAppend([t[0]], t[1..], n);
      OfLengthAppend([t[0]], rest, n);
      assert [t[0]] + t[1..] == t;
    }
  }

  /** Stable sort by length. */
  function SortByLen(xs: seq<string>): (r: seq<string>)
    ensures SortedByLen(r)
    ensures multiset(r) == multiset(xs)
  {
    if xs == [] then []
    else
      assert xs == xs[..|xs| - 1] + [xs[|xs| - 1]];
      InsertByLenSorted(SortByLen(xs[..|xs| - 1]), xs[|xs| - 1]);
      InsertByLenPermutes(SortByLen(xs[..|xs| - 1]), xs[|xs| - 1]);
      InsertByLen(SortByLen(xs[..|xs| - 1]), xs[|xs| - 1])
  }

  /** Stability: for every length, the names of that length come out in the
      order they went in. */
  lemma {:induction false} SortByLenStable(xs: seq<string>, n: nat)
    ensures OfLength(SortByLen(xs), n) == OfLength(xs, n)
  {
    if xs != [] {
      var init, last := xs[..|xs| - 1], xs[|xs| - 1];
      var tail := if |last| == n then [last] else [];
      var sorted := SortByLen(init);
      assert xs == init + [last];
      SortByLenStable(init, n);
      InsertByLenStable(sorted, last, n);
      OfLengthAppend(init, [last], n);
      assert OfLength([last], n) == tail + OfLength([], n);
      calc {
        OfLength(SortByLen(xs), n);
        OfLength(InsertByLen(sorted, last), n);
        OfLength(sorted, n) + tail;
        OfLength(init, n) + tail;
        OfLength(xs, n);
      }
    }
  }
}
