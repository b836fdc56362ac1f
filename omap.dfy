/**
  Insertion-ordered dictionaries, the way Python's `dict` behaves: a key
  sequence in first-insertion order plus the key/value map. Writing a key
  that is already present replaces its value and keeps its position.
 */
module OrderedMaps {

  datatype OMap<K, V> = OMap(keys: seq<K>, m: map<K, V>)

  /** Keys are distinct and are exactly the domain of the map. */
  ghost predicate Valid<K(!new), V>(d: OMap<K, V>) {
    && (forall i, j :: 0 <= i < j < |d.keys| ==> d.keys[i] != d.keys[j])
    && (forall k :: k in d.m <==> k in d.keys)
  }

  function Empty<K(!new), V>(): (r: OMap<K, V>)
    ensures Valid(r) && r.keys == [] && r.m == map[]
  {
    OMap([], map[])
  }

  /** `d[k] = v` */
  function Put<K(!new), V>(d: OMap<K, V>, k: K, v: V): (r: OMap<K, V>)
    requires Valid(d)
    ensures Valid(r)
    ensures r.m == d.m[k := v]
    ensures k in d.m ==> r.keys == d.keys
    ensures k !in d.m ==> r.keys == d.keys + [k]
  {
    if k in d.m then OMap(d.keys, d.m[k := v]) else OMap(d.keys + [k], d.m[k := v])
  }

  /** The entries of `src` whose keys are in `ks`. */
  function Restrict<K(!new), V>(src: map<K, V>, ks: seq<K>): map<K, V>
    requires forall k :: k in ks ==> k in src
  {
    map k | k in ks :: src[k]
  }

  /** Writes `src[k]` into `d` for every `k` of `ks`, in order. */
  function PutEach<K(!new), V>(d: OMap<K, V>, src: map<K, V>, ks: seq<K>): (r: OMap<K, V>)
    requires Valid(d)
    requires forall k :: k in ks ==> k in src
    ensures Valid(r)
    ensures |d.keys| <= |r.keys| && r.keys[..|d.keys|] == d.keys
  {
    if ks == [] then
      d
    else
      var init, last := ks[..|ks| - 1], ks[|ks| - 1];
      var p := PutEach(d, src, init);
      Put(p, last, src[last])
  }

  lemma PutEachSnoc<K(!new), V>(d: OMap<K, V>, src: map<K, V>, ks: seq<K>, i: nat)
    requires Valid(d)
    requires forall k :: k in ks ==> k in src
    requires i < |ks|
    ensures forall k :: k in ks[..i + 1] ==> k in src
    ensures PutEach(d, src, ks[..i + 1]) == Put(PutEach(d, src, ks[..i]), ks[i], src[ks[i]])
  {
    assert ks[..i + 1][..i] == ks[..i];
  }

  /** `{**a, **b}`: every entry of `b` written over `a` in `b`'s key order.
      The result is the right-biased union, with `a`'s keys first and in order. */
  function Merge<K(!new), V>(a: OMap<K, V>, b: OMap<K, V>): (r: OMap<K, V>)
    requires Valid(a) && Valid(b)
    ensures Valid(r)
    ensures r.m == a.m + b.m
    ensures |a.keys| <= |r.keys| && r.keys[..|a.keys|] == a.keys
  {
    PutEachEntries(a, b.m, b.keys);
    assert Restrict(b.m, b.keys) == b.m;
    PutEach(a, b.m, b.keys)
  }

  /** `{**a, **b, **c}` keeps `a`'s keys first, in order. */
  lemma MergeThreeOrder<K(!new), V>(a: OMap<K, V>, b: OMap<K, V>, c: OMap<K, V>)
    requires Valid(a) && Valid(b) && Valid(c)
    ensures Merge(Merge(a, b), c).keys[..|a.keys|] == a.keys
  {
    var inner := Merge(a, b);
    SliceOfPrefix(Merge(inner, c).keys, inner.keys, |a.keys|);
  }

  lemma SliceOfPrefix<T>(xs: seq<T>, ys: seq<T>, n: nat)
    requires n <= |ys| <= |xs| && xs[..|ys|] == ys
    ensures xs[..n] == ys[..n]
  {
    assert forall i :: 0 <= i < n ==> xs[i] == xs[..|ys|][i];
  }

  /** In `{**a, **b, **c}` a key takes its value from the last of the
      three that has it. */
  lemma MergeThreeValue<K(!new), V>(a: OMap<K, V>, b: OMap<K, V>, c: OMap<K, V>, k: K)
    requires Valid(a) && Valid(b) && Valid(c)
    ensures k in Merge(Merge(a, b), c).m <==> k in a.m || k in b.m || k in c.m
    ensures k in c.m ==> Merge(Merge(a, b), c).m[k] == c.m[k]
    ensures k !in c.m && k in b.m ==> Merge(Merge(a, b), c).m[k] == b.m[k]
    ensures k !in c.m && k !in b.m && k in a.m ==> Merge(Merge(a, b), c).m[k] == a.m[k]
  {
    assert Merge(Merge(a, b), c).m == (a.m + b.m) + c.m;
  }

  lemma PutEachFromEmpty<K(!new), V>(src: map<K, V>, ks: seq<K>)
    requires forall k :: k in ks ==> k in src
    ensures PutEach(Empty(), src, ks).m == Restrict(src, ks)
  {
    PutEachEntries(Empty(), src, ks);
    var e: map<K, V> := map[];
    assert e + Restrict(src, ks) == Restrict(src, ks);
  }

  lemma RestrictKeys<K(!new), V>(src: map<K, V>, ks: seq<K>)
    requires forall k :: k in ks ==> k in src
    ensures forall k :: k in Restrict(src, ks) <==> k in ks
  {
  }

  lemma UnionAssoc<K, V>(a: map<K, V>, b: map<K, V>, c: map<K, V>)
    ensures (a + b) + c == a + (b + c)
  {
  }

  lemma UnionEmpty<K, V>(a: map<K, V>)
    ensures map[] + a == a
  {
  }

  /** Two restrictions that together cover the map rebuild it. */
  lemma RestrictCover<K(!new), V>(src: map<K, V>, a: seq<K>, b: seq<K>)
    requires forall k :: k in a ==> k in src
    requires forall k :: k in b ==> k in src
    requires forall k :: k in src ==> k in a || k in b
    ensures Restrict(src, a) + Restrict(src, b) == src
  {
    var r := Restrict(src, a) + Restrict(src, b);
    assert r.Keys == src.Keys;
    forall k | k in src ensures r[k] == src[k] {
    }
  }

  lemma RestrictSnoc<K(!new), V>(src: map<K, V>, ks: seq<K>)
    requires ks != [] && forall k :: k in ks ==> k in src
    ensures Restrict(src, ks) == Restrict(src, ks[..|ks| - 1])[ks[|ks| - 1] := src[ks[|ks| - 1]]]
  {
    var init, last := ks[..|ks| - 1], ks[|ks| - 1];
    assert ks == init + [last];
    var lhs, rhs := Restrict(src, ks), Restrict(src, init)[last := src[last]];
    assert lhs.Keys == rhs.Keys;
  }

  lemma UpdateUnion<K, V>(a: map<K, V>, b: map<K, V>, k: K, v: V)
    ensures (a + b)[k := v] == a + b[k := v]
  {
  }

  /** After writing `ks`, the map holds `src`'s value on every key of `ks`
      and `d`'s value on every other key of `d`. */
  lemma {:induction false} PutEachEntries<K(!new), V>(d: OMap<K, V>, src: map<K, V>, ks: seq<K>)
    requires Valid(d)
    requires forall k :: k in ks ==> k in src
    ensures PutEach(d, src, ks).m == d.m + Restrict(src, ks)
  {
    if ks == [] {
      assert Restrict(src, ks) == map[];
    } else {
      var init, last := ks[..|ks| - 1], ks[|ks| - 1];
      PutEachEntries(d, src, init);
      RestrictSnoc(src, ks);
      var p := PutEach(d, src, init);
      calc {
        PutEach(d, src, ks).m;
        p.m[last := src[last]];
        (d.m + Restrict(src, init))[last := src[last]];
        { UpdateUnion(d.m, Restrict(src, init), last, src[last]); }
        d.m + Restrict(src, init)[last := src[last]];
      }
    }
  }

  /** Writing the same entries a second time changes nothing (key order included). */
  lemma {:induction false} PutEachAgain<K(!new), V>(e: OMap<K, V>, src: map<K, V>, ks: seq<K>)
    requires Valid(e)
    requires forall k :: k in ks ==> k in src
    requires forall k :: k in ks ==> k in e.m && e.m[k] == src[k]
    ensures PutEach(e, src, ks) == e
  {
    if ks != [] {
      PutEachAgain(e, src, ks[..|ks| - 1]);
    }
  }
}
