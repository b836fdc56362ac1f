/**
  Sequence facts the import walk relies on, stated for any element type:
  mapping a function over a list, the first element a test refuses, and
  how both behave when a list grows one element or one block at a time.
 */
module Sequences {
  import opened Options

  function MapSeq<T, U>(xs: seq<T>, f: T -> U): (r: seq<U>)
    ensures |r| == |xs|
  {
    if xs == [] then [] else MapSeq(xs[..|xs| - 1], f) + [f(xs[|xs| - 1])]
  }

  /** Each element of the image is the image of the element. */
  lemma {:induction false} MapSeqAt<T, U>(xs: seq<T>, f: T -> U)
    ensures forall i :: 0 <= i < |xs| ==> MapSeq(xs, f)[i] == f(xs[i])
  {
    if xs != [] {
      var init := xs[..|xs| - 1];
      MapSeqAt(init, f);
      assert forall i :: 0 <= i < |init| ==> init[i] == xs[i];
    }
  }

  lemma MapSeqAppend<T, U>(a: seq<T>, b: seq<T>, f: T -> U)
    ensures MapSeq(a + b, f) == MapSeq(a, f) + MapSeq(b, f)
  {
    var l, r := MapSeq(a + b, f), MapSeq(a, f) + MapSeq(b, f);
    MapSeqAt(a + b, f);
    MapSeqAt(a, f);
    MapSeqAt(b, f);
    forall i | 0 <= i < |l| ensures l[i] == r[i] {
      if i < |a| {
        assert (a + b)[i] == a[i];
      } else {
        assert (a + b)[i] == b[i - |a|];
      }
    }
  }

  lemma MapSeqPrefix<T, U>(xs: seq<T>, m: nat, f: T -> U)
    requires m <= |xs|
    ensures MapSeq(xs[..m], f) == MapSeq(xs, f)[..m]
  {
    MapSeqAt(xs[..m], f);
    MapSeqAt(xs, f);
  }

  /** `p` holds of every element. */
  predicate AllHold<T>(xs: seq<T>, p: T -> bool) {
    forall i :: 0 <= i < |xs| ==> p(xs[i])
  }

  /** The position of the first element `p` refuses (`|xs|` when it
      accepts them all). */
  function FirstFalse<T>(xs: seq<T>, p: T -> bool): (k: nat)
    ensures k <= |xs|
    ensures forall i :: 0 <= i < k ==> p(xs[i])
    ensures k < |xs| ==> !p(xs[k])
  {
    if xs == [] then 0
    else if !p(xs[0]) then 0
    else
      var k := FirstFalse(xs[1..], p);
      assert forall i :: 1 <= i < k + 1 ==> xs[i] == xs[1..][i - 1];
      k + 1
  }

  /** The three facts of the contract fix the position. */
  lemma {:induction false} FirstFalseIs<T>(xs: seq<T>, k: nat, p: T -> bool)
    requires k <= |xs|
    requires forall i :: 0 <= i < k ==> p(xs[i])
    requires k < |xs| ==> !p(xs[k])
    ensures FirstFalse(xs, p) == k
  {
    if xs != [] && k > 0 {
      assert forall i :: 0 <= i < k - 1 ==> xs[1..][i] == xs[i + 1];
      FirstFalseIs(xs[1..], k - 1, p);
    }
  }

  lemma FirstFalseAll<T>(xs: seq<T>, p: T -> bool)
    ensures FirstFalse(xs, p) == |xs| <==> AllHold(xs, p)
  {
    if AllHold(xs, p) {
      FirstFalseIs(xs, |xs|, p);
    }
  }

  /** The position of the last element `p` accepts, if any. */
  function LastWhere<T>(xs: seq<T>, p: T -> bool): (r: Option<nat>)
    ensures r.Some? ==> r.value < |xs|
  {
    if xs == [] then None
    else if p(xs[|xs| - 1]) then Some(|xs| - 1)
    else LastWhere(xs[..|xs| - 1], p)
  }

  /** No element is accepted when there is no last one; otherwise the last
      accepted one is accepted and none after it is. */
  lemma {:induction false} LastWhereIsLast<T>(xs: seq<T>, p: T -> bool)
    ensures LastWhere(xs, p).None? ==> forall j :: 0 <= j < |xs| ==> !p(xs[j])
    ensures LastWhere(xs, p).Some? ==> p(xs[LastWhere(xs, p).value])
    ensures LastWhere(xs, p).Some? ==> forall k :: LastWhere(xs, p).value < k < |xs| ==> !p(xs[k])
  {
    if xs != [] && !p(xs[|xs| - 1]) {
      var init := xs[..|xs| - 1];
      LastWhereIsLast(init, p);
      assert forall j :: 0 <= j < |init| ==> init[j] == xs[j];
    }
  }

  /** The elements up to and including position `k` (all of them when
      `k` is past the end). */
  function Attempted<T>(xs: seq<T>, k: nat): seq<T>
    requires k <= |xs|
  {
    if k < |xs| then xs[..k + 1] else xs
  }

  lemma SeqAssoc<T>(a: seq<T>, b: seq<T>, c: seq<T>)
    ensures (a + b) + c == a + (b + c)
  {
  }

  lemma PrefixOfPrefix<T>(all: seq<T>, a: seq<T>, b: seq<T>, k: nat)
    requires |a| + |b| <= |all| && all[..|a| + |b|] == a + b && k <= |b|
    ensures all[..|a| + k] == a + b[..k]
  {
    assert all[..|a| + k] == all[..|a| + |b|][..|a| + k];
  }

  /** The first refusal in a list that starts with an accepted part `a`
      and then `b` lies in `b` when `b` has one. */
  lemma FirstFalseShift<T>(xs: seq<T>, a: seq<T>, b: seq<T>, p: T -> bool)
    requires |a| + |b| <= |xs| && xs[..|a| + |b|] == a + b
    requires AllHold(a, p)
    requires FirstFalse(b, p) < |b|
    ensures FirstFalse(xs, p) == |a| + FirstFalse(b, p)
  {
    var k := FirstFalse(b, p);
    forall i | 0 <= i <= |a| + k ensures xs[i] == (a + b)[i] {
      assert xs[i] == xs[..|a| + |b|][i];
    }
    forall i | 0 <= i < |a| + k ensures p(xs[i]) {
      if i >= |a| {
        assert (a + b)[i] == b[i - |a|];
      }
    }
    assert (a + b)[|a| + k] == b[k];
    FirstFalseIs(xs, |a| + k, p);
  }

  /** The images `mk(i, xs[i])` of the elements `p` accepts, in order. */
  function Picks<T, U>(xs: seq<T>, p: T -> bool, mk: (nat, T) -> U): seq<U>
  {
    if xs == [] then []
    else
      var init, x := xs[..|xs| - 1], xs[|xs| - 1];
      Picks(init, p, mk) + (if p(x) then [mk(|init|, x)] else [])
  }

  /** Every accepted element has its image among the picks. */
  lemma {:induction false} PicksHas<T, U>(xs: seq<T>, i: nat, p: T -> bool, mk: (nat, T) -> U)
    requires i < |xs| && p(xs[i])
    ensures mk(i, xs[i]) in Picks(xs, p, mk)
  {
    var init := xs[..|xs| - 1];
    if i < |init| {
      assert init[i] == xs[i];
      PicksHas(init, i, p, mk);
    }
  }

  /** Every pick is the image of an accepted element at the position `idx`
      reads back from it, and the picks follow the elements' order. */
  lemma {:induction false} PicksFrom<T, U>(xs: seq<T>, p: T -> bool, mk: (nat, T) -> U, idx: U -> nat)
    requires forall i, x :: idx(mk(i, x)) == i
    ensures forall a :: 0 <= a < |Picks(xs, p, mk)| ==>
      var r := Picks(xs, p, mk); idx(r[a]) < |xs| && p(xs[idx(r[a])]) && r[a] == mk(idx(r[a]), xs[idx(r[a])])
    ensures forall a, b :: 0 <= a < b < |Picks(xs, p, mk)| ==>
      idx(Picks(xs, p, mk)[a]) < idx(Picks(xs, p, mk)[b])
  {
    if xs != [] {
      var init, x := xs[..|xs| - 1], xs[|xs| - 1];
      PicksFrom(init, p, mk, idx);
      var q := Picks(init, p, mk);
      var r := Picks(xs, p, mk);
      forall a | 0 <= a < |q| ensures idx(q[a]) < |init| && init[idx(q[a])] == xs[idx(q[a])] {
      }
      if p(x) {
        assert r == q + [mk(|init|, x)];
        assert idx(mk(|init|, x)) == |init|;
      } else {
        assert r == q;
      }
    }
  }

  // ---------------------------------------------------------------------
  // A run: items processed in order, each one's image offered to a test,
  // stopping at the first refusal

  /** One more accepted item extends the accepted run. */
  lemma RunStep<T, U>(done: seq<T>, x: T, f: T -> U, p: U -> bool)
    requires AllHold(MapSeq(done, f), p)
    ensures MapSeq(done + [x], f) == MapSeq(done, f) + [f(x)]
    ensures p(f(x)) ==> AllHold(MapSeq(done + [x], f), p)
  {
    assert (done + [x])[..|done|] == done;
  }

  /** A refused item right after an accepted prefix is the first refusal. */
  lemma RunStopsAt<T, U>(xs: seq<T>, k: nat, f: T -> U, p: U -> bool)
    requires k < |xs|
    requires AllHold(MapSeq(xs[..k], f), p)
    requires !p(f(xs[k]))
    ensures FirstFalse(MapSeq(xs, f), p) == k
    ensures Attempted(xs, k) == xs[..k] + [xs[k]]
  {
    assert xs[..k + 1] == xs[..k] + [xs[k]];
    var ns, ps := MapSeq(xs, f), MapSeq(xs[..k], f);
    MapSeqAt(xs, f);
    MapSeqAt(xs[..k], f);
    forall i | 0 <= i < k ensures p(ns[i]) {
      assert xs[..k][i] == xs[i];
      assert ns[i] == ps[i];
    }
    FirstFalseIs(ns, k, p);
  }

  /** A block that is accepted throughout extends the accepted run. */
  lemma RunExtends<T, U>(done: seq<T>, block: seq<T>, f: T -> U, p: U -> bool)
    requires AllHold(MapSeq(done, f), p)
    requires FirstFalse(MapSeq(block, f), p) == |block|
    ensures block[..|block|] == block && Attempted(block, |block|) == block
    ensures MapSeq(done + block, f) == MapSeq(done, f) + MapSeq(block, f)
    ensures AllHold(MapSeq(done + block, f), p)
  {
    assert block[..|block|] == block;
    MapSeqAppend(done, block, f);
  }

  /** A block with a refusal, after an accepted run, holds the first
      refusal of any list that starts with the run and the block. */
  lemma RunStopsIn<T, U>(all: seq<T>, done: seq<T>, block: seq<T>, k: nat, f: T -> U, p: U -> bool)
    requires |done| + |block| <= |all| && all[..|done| + |block|] == done + block
    requires AllHold(MapSeq(done, f), p)
    requires k == FirstFalse(MapSeq(block, f), p) && k < |block|
    ensures FirstFalse(MapSeq(all, f), p) == |done| + k
    ensures all[..|done| + k] == done + block[..k]
    ensures Attempted(all, |done| + k) == done + Attempted(block, k)
    ensures MapSeq(done + block[..k], f) == MapSeq(done, f) + MapSeq(block[..k], f)
  {
    var n := |done| + |block|;
    MapSeqPrefix(all, n, f);
    MapSeqAppend(done, block, f);
    assert MapSeq(all, f)[..n] == MapSeq(done, f) + MapSeq(block, f) by {
      assert all[..n] == done + block;
    }
    FirstFalseShift(MapSeq(all, f), MapSeq(done, f), MapSeq(block, f), p);
    PrefixOfPrefix(all, done, block, k);
    PrefixOfPrefix(all, done, block, k + 1);
    MapSeqAppend(done, block[..k], f);
  }
}
