/**
  What the pairing index guarantees (mediaimport-2/__init__.py:131-157),
  stated about the reference `Pairing.PairIndex` that the loops are proved
  to compute: when it succeeds and when it fails, the shape of each pair,
  that no file is used twice, that every media base name is covered, and
  the order in which the pairs are emitted.
 */
module PairingFacts {
  import opened Options
  import opened Text
  import opened OrderedMaps
  import opened Media
  import opened LengthSort
  import opened Pairing

  // ---------------------------------------------------------------------
  // Pairs written for a sequence of emitted base names

  /** Every indexed file sits under its own base name. */
  ghost predicate KeyedByBase(endings: OMap<string, string>) {
    forall b :: b in endings.m ==> BaseName(endings.m[b]) == b
  }

  /** The indexed file of each name of `e`, in order. */
  function FilesOf(endings: OMap<string, string>, e: seq<string>): (r: seq<string>)
    requires forall b :: b in e ==> b in endings.m
    ensures |r| == |e|
    ensures forall j :: 0 <= j < |e| ==> r[j] == endings.m[e[j]]
  {
    if e == [] then []
    else
      assert forall b :: b in e[..|e| - 1] ==> b in e;
      FilesOf(endings, e[..|e| - 1]) + [endings.m[e[|e| - 1]]]
  }

  /** The first occurrence of each element, in order. */
  function Dedup(s: seq<string>): (r: seq<string>)
    ensures forall x :: x in r <==> x in s
    ensures forall i, j :: 0 <= i < j < |r| ==> r[i] != r[j]
  {
    if s == [] then []
    else
      var init, last := s[..|s| - 1], s[|s| - 1];
      assert s == init + [last];
      var d := Dedup(init);
      if last in init then d else d + [last]
  }

  /** The pairs' primary files come in the order of the emitted names,
      each at its first emission. */
  lemma {:induction false} PairsOfKeys(endings: OMap<string, string>, e: seq<string>, suffix: string)
    requires Valid(endings)
    requires forall b :: b in e ==> b in endings.m
    requires AllPresent(e, endings.m.Keys, suffix)
    ensures PairsOf(endings, e, suffix).keys == Dedup(FilesOf(endings, e))
  {
    if e != [] {
      var init, last := e[..|e| - 1], e[|e| - 1];
      assert forall b :: b in init ==> b in e;
      PairsOfKeys(endings, init, suffix);
      var fs := FilesOf(endings, init);
      assert FilesOf(endings, e) == fs + [endings.m[last]];
      assert (fs + [endings.m[last]])[..|fs|] == fs;
    }
  }

  /** Each emitted name's file is paired with its suffixed name's file, and
      every paired primary file is the file of an emitted name. */
  lemma {:induction false} PairsOfEntries(endings: OMap<string, string>, e: seq<string>, suffix: string)
    requires Valid(endings) && KeyedByBase(endings)
    requires forall b :: b in e ==> b in endings.m
    requires AllPresent(e, endings.m.Keys, suffix)
    ensures var r := PairsOf(endings, e, suffix);
      && (forall b :: b in e ==> endings.m[b] in r.m && r.m[endings.m[b]] == endings.m[b + suffix])
      && (forall f :: f in r.m ==> BaseName(f) in e && f == endings.m[BaseName(f)])
  {
    if e != [] {
      var init, last := e[..|e| - 1], e[|e| - 1];
      assert forall b :: b in e <==> b in init || b == last by {
        assert e == init + [last];
      }
      PairsOfEntries(endings, init, suffix);
      var p := PairsOf(endings, init, suffix);
      var r := PairsOf(endings, e, suffix);
      var fl := endings.m[last];
      assert last + suffix in endings.m by {
        assert e[|e| - 1] + suffix in endings.m.Keys;
      }
      assert r.m == p.m[fl := endings.m[last + suffix]];
      forall b | b in e
        ensures endings.m[b] in r.m && r.m[endings.m[b]] == endings.m[b + suffix]
      {
        if b != last {
          assert b in init;
          assert endings.m[b] != fl by {
            assert BaseName(endings.m[b]) == b && BaseName(fl) == last;
          }
        }
      }
      forall f | f in r.m ensures BaseName(f) in e && f == endings.m[BaseName(f)] {
        if f != fl {
          assert f in p.m;
        }
      }
    }
  }

  // ---------------------------------------------------------------------
  // When the pairing pass succeeds

  /** What `PairIndex` is, in terms of the emitted names. */
  lemma PairIndexUnfold(files: seq<string>, suffix: string, kinds: MediaKinds)
    requires |suffix| > 0
    ensures var ix := IndexFiles(files, suffix, kinds);
      var names := ix.endings.m.Keys;
      var e := Emission(ix, suffix);
      var r := PairIndex(files, suffix, kinds);
      && Valid(ix.endings) && KeyedByBase(ix.endings)
      && (forall b :: b in e <==> b in names && EvenRank(b, names, suffix))
      && (r.Paired? <==> AllPresent(e, names, suffix))
      && (r.Paired? ==> r.index == PairsOf(ix.endings, e, suffix))
      && (r.MissingSecondary? ==> r.key == FirstMissing(e, names, suffix).value + suffix)
  {
    var ix := IndexFiles(files, suffix, kinds);
    EmissionIndexed(ix, files, suffix, kinds);
  }

  /** All emitted names have partners exactly when every name of even rank
      has one. */
  lemma AllPresentIffEvenPartnered(e: seq<string>, names: set<string>, suffix: string)
    requires |suffix| > 0
    requires forall b :: b in e <==> b in names && EvenRank(b, names, suffix)
    ensures AllPresent(e, names, suffix)
            <==> forall b :: b in names && EvenRank(b, names, suffix) ==> b + suffix in names
  {
    if forall b :: b in names && EvenRank(b, names, suffix) ==> b + suffix in names {
      forall j | 0 <= j < |e| ensures e[j] + suffix in names {
        assert e[j] in e;
      }
    } else {
      var b :| b in names && EvenRank(b, names, suffix) && b + suffix !in names;
      assert b in e;
      var j :| 0 <= j < |e| && e[j] == b;
    }
  }

  /** The pass succeeds exactly when every media base name of even rank has
      its suffixed partner among the folder's media base names. */
  lemma PairIndexSucceeds(files: seq<string>, suffix: string, kinds: MediaKinds)
    requires |suffix| > 0
    ensures var names := Names(files, suffix, kinds);
      PairIndex(files, suffix, kinds).Paired?
      <==> forall b :: b in names && EvenRank(b, names, suffix) ==> b + suffix in names
  {
    var ix := IndexFiles(files, suffix, kinds);
    PairIndexUnfold(files, suffix, kinds);
    AllPresentIffEvenPartnered(Emission(ix, suffix), ix.endings.m.Keys, suffix);
  }

  /** A failure names the suffixed form of a media base name of even rank,
      and that form is not a media base name of the folder. */
  lemma PairIndexFailure(files: seq<string>, suffix: string, kinds: MediaKinds)
    requires |suffix| > 0
    requires PairIndex(files, suffix, kinds).MissingSecondary?
    ensures var names := Names(files, suffix, kinds);
      var key := PairIndex(files, suffix, kinds).key;
      && key !in names
      && exists b :: b in names && EvenRank(b, names, suffix) && key == b + suffix
  {
    var ix := IndexFiles(files, suffix, kinds);
    var e := Emission(ix, suffix);
    EmissionIndexed(ix, files, suffix, kinds);
    var b := FirstMissing(e, ix.endings.m.Keys, suffix).value;
    assert b in e;
  }

  /** A trivial primary (a media file whose base name is not a candidate
      secondary) without its suffixed partner makes the pass fail. */
  lemma TrivialPrimaryNeedsPartner(files: seq<string>, suffix: string, kinds: MediaKinds, f: string)
    requires |suffix| > 0
    requires f in files && IsMediaFile(f, kinds)
    requires !IsCandidateSecondary(BaseName(f), suffix)
    requires BaseName(f) + suffix !in Names(files, suffix, kinds)
    ensures PairIndex(files, suffix, kinds).MissingSecondary?
  {
    var names := Names(files, suffix, kinds);
    assert BaseName(f) in names;
    assert Rank(BaseName(f), names, suffix) == 0;
    PairIndexSucceeds(files, suffix, kinds);
  }

  /** The primary files of the index are exactly the folder's indexed media
      files whose base name has even rank, and each is paired with the file
      whose base name is its own plus the suffix. */
  lemma PairIndexEntries(files: seq<string>, suffix: string, kinds: MediaKinds)
    requires |suffix| > 0
    requires PairIndex(files, suffix, kinds).Paired?
    ensures var ix := IndexFiles(files, suffix, kinds);
      var names := ix.endings.m.Keys;
      var idx := PairIndex(files, suffix, kinds).index;
      && (forall p :: p in idx.m <==> BaseName(p) in names && p == ix.endings.m[BaseName(p)]
                                      && EvenRank(BaseName(p), names, suffix))
      && (forall p :: p in idx.m ==>
            BaseName(p) + suffix in names && idx.m[p] == ix.endings.m[BaseName(p) + suffix])
  {
    var ix := IndexFiles(files, suffix, kinds);
    var names := ix.endings.m.Keys;
    var e := Emission(ix, suffix);
    EmissionIndexed(ix, files, suffix, kinds);
    PairsOfEntries(ix.endings, e, suffix);
    var idx := PairIndex(files, suffix, kinds).index;
    assert idx == PairsOf(ix.endings, e, suffix);
    forall p | p in idx.m ensures BaseName(p) + suffix in names {
      assert BaseName(p) in e;
      var j :| 0 <= j < |e| && e[j] == BaseName(p);
    }
  }

  /** On success each pair joins two media files of the listing, and the
      secondary's base name is the primary's base name plus the suffix. */
  lemma PairIndexShape(files: seq<string>, suffix: string, kinds: MediaKinds)
    requires |suffix| > 0
    requires PairIndex(files, suffix, kinds).Paired?
    ensures var idx := PairIndex(files, suffix, kinds).index;
      forall p :: p in idx.m ==>
        && p in files && IsMediaFile(p, kinds)
        && idx.m[p] in files && IsMediaFile(idx.m[p], kinds)
        && BaseName(idx.m[p]) == BaseName(p) + suffix
  {
    PairIndexEntries(files, suffix, kinds);
  }

  /** No media file is the secondary of two pairs. */
  lemma SecondariesDistinct(files: seq<string>, suffix: string, kinds: MediaKinds)
    requires |suffix| > 0
    requires PairIndex(files, suffix, kinds).Paired?
    ensures var idx := PairIndex(files, suffix, kinds).index;
      forall p, q :: p in idx.m && q in idx.m && idx.m[p] == idx.m[q] ==> p == q
  {
    var idx := PairIndex(files, suffix, kinds).index;
    PairIndexEntries(files, suffix, kinds);
    PairIndexShape(files, suffix, kinds);
    forall p, q | p in idx.m && q in idx.m && idx.m[p] == idx.m[q] ensures p == q {
      assert BaseName(p) + suffix == BaseName(q) + suffix;
      assert BaseName(p) == (BaseName(p) + suffix)[..|BaseName(p)|];
      assert BaseName(q) == (BaseName(q) + suffix)[..|BaseName(q)|];
    }
  }

  /** Appending the suffix to a non-empty name raises its rank by one. */
  lemma RankOfSuffixed(q: string, names: set<string>, suffix: string)
    requires |suffix| > 0
    requires q != "" && q in names
    ensures Rank(q + suffix, names, suffix) == Rank(q, names, suffix) + 1
  {
    SuffixedIsCandidate(q, suffix);
    assert Parent(q + suffix, suffix) == q;
  }

  /** Pairs that start at names of even rank and end at those names plus
      the suffix never chain: no primary is a secondary. */
  lemma EvenPairsDoNotChain(idx: map<string, string>, names: set<string>, suffix: string)
    requires |suffix| > 0
    requires forall b :: b in names ==> b != ""
    requires forall p :: p in idx ==>
      BaseName(p) in names && EvenRank(BaseName(p), names, suffix) && BaseName(idx[p]) == BaseName(p) + suffix
    ensures forall p, q :: p in idx && q in idx ==> p != idx[q]
  {
    forall p, q | p in idx && q in idx ensures p != idx[q] {
      EvenNotSuffixedEven(BaseName(p), BaseName(q), names, suffix);
    }
  }

  /** A name of even rank is not another name of even rank plus the suffix. */
  lemma EvenNotSuffixedEven(bp: string, bq: string, names: set<string>, suffix: string)
    requires |suffix| > 0
    requires bq != "" && bq in names
    requires EvenRank(bp, names, suffix) && EvenRank(bq, names, suffix)
    ensures bp != bq + suffix
  {
    RankOfSuffixed(bq, names, suffix);
  }

  /** A name of odd rank is its parent, of even rank, plus the suffix. */
  lemma OddRankParent(b: string, names: set<string>, suffix: string)
    requires |suffix| > 0
    requires !EvenRank(b, names, suffix)
    ensures IsCandidateSecondary(b, suffix) && Parent(b, suffix) in names
    ensures EvenRank(Parent(b, suffix), names, suffix)
    ensures Parent(b, suffix) + suffix == b
  {
    assert b == b[..|b| - |suffix|] + b[|b| - |suffix|..];
  }

  /** The folder's media base names are non-empty when its file names are. */
  lemma NamesNonEmpty(files: seq<string>, suffix: string, kinds: MediaKinds)
    requires forall i :: 0 <= i < |files| ==> files[i] != ""
    ensures forall b :: b in Names(files, suffix, kinds) ==> b != ""
  {
    var ix := IndexFiles(files, suffix, kinds);
    forall b | b in ix.endings.m ensures b != "" {
      BaseNameNonEmpty(ix.endings.m[b]);
    }
  }

  /** No pair's primary file is another pair's secondary file (for listings
      of non-empty file names). */
  lemma PrimaryNotSecondary(files: seq<string>, suffix: string, kinds: MediaKinds)
    requires |suffix| > 0
    requires forall i :: 0 <= i < |files| ==> files[i] != ""
    requires PairIndex(files, suffix, kinds).Paired?
    ensures var idx := PairIndex(files, suffix, kinds).index;
      forall p, q :: p in idx.m && q in idx.m ==> p != idx.m[q]
  {
    PairIndexEntries(files, suffix, kinds);
    PairIndexShape(files, suffix, kinds);
    NamesNonEmpty(files, suffix, kinds);
    EvenPairsDoNotChain(PairIndex(files, suffix, kinds).index.m, Names(files, suffix, kinds), suffix);
  }

  /** With pairs from every name of even rank to that name plus the suffix,
      every name of odd rank is the secondary of its parent's pair. */
  lemma EvenPairsCover(endings: OMap<string, string>, idx: map<string, string>, suffix: string)
    requires |suffix| > 0
    requires KeyedByBase(endings)
    requires forall p :: p in idx <==> BaseName(p) in endings.m && p == endings.m[BaseName(p)]
                                       && EvenRank(BaseName(p), endings.m.Keys, suffix)
    requires forall p :: p in idx ==>
      BaseName(p) + suffix in endings.m && idx[p] == endings.m[BaseName(p) + suffix]
    ensures forall b :: b in endings.m ==>
      if EvenRank(b, endings.m.Keys, suffix) then endings.m[b] in idx
      else && IsCandidateSecondary(b, suffix) && Parent(b, suffix) in endings.m
           && endings.m[Parent(b, suffix)] in idx
           && idx[endings.m[Parent(b, suffix)]] == endings.m[b]
  {
    forall b | b in endings.m
      ensures if EvenRank(b, endings.m.Keys, suffix) then endings.m[b] in idx
        else && IsCandidateSecondary(b, suffix) && Parent(b, suffix) in endings.m
             && endings.m[Parent(b, suffix)] in idx
             && idx[endings.m[Parent(b, suffix)]] == endings.m[b]
    {
      var names := endings.m.Keys;
      assert BaseName(endings.m[b]) == b;
      if !EvenRank(b, names, suffix) {
        OddRankParent(b, names, suffix);
        var q := Parent(b, suffix);
        var p := endings.m[q];
        assert BaseName(p) == q;
        assert p in idx;
      }
    }
  }

  /** Every media base name of the folder takes part in a pair: one of even
      rank as the primary, one of odd rank as the secondary of its parent. */
  lemma PairIndexCovers(files: seq<string>, suffix: string, kinds: MediaKinds)
    requires |suffix| > 0
    requires PairIndex(files, suffix, kinds).Paired?
    ensures var ix := IndexFiles(files, suffix, kinds);
      var names := ix.endings.m.Keys;
      var idx := PairIndex(files, suffix, kinds).index;
      forall b :: b in names ==>
        if EvenRank(b, names, suffix) then ix.endings.m[b] in idx.m
        else && IsCandidateSecondary(b, suffix) && Parent(b, suffix) in names
             && ix.endings.m[Parent(b, suffix)] in idx.m
             && idx.m[ix.endings.m[Parent(b, suffix)]] == ix.endings.m[b]
  {
    PairIndexUnfold(files, suffix, kinds);
    PairIndexEntries(files, suffix, kinds);
    EvenPairsCover(IndexFiles(files, suffix, kinds).endings, PairIndex(files, suffix, kinds).index.m, suffix);
  }

  // ---------------------------------------------------------------------
  // Emission order

  lemma {:induction false} EvenRankedSorted(xs: seq<string>, names: set<string>, suffix: string)
    requires |suffix| > 0
    requires SortedByLen(xs)
    ensures SortedByLen(EvenRanked(xs, names, suffix))
  {
    if xs != [] {
      EvenRankedSorted(xs[1..], names, suffix);
      var rest := EvenRanked(xs[1..], names, suffix);
      forall j | 0 <= j < |rest| ensures |xs[0]| <= |rest[j]| {
        assert rest[j] in xs[1..];
      }
    }
  }

  /** Keeping the names of one length and keeping the names of even rank
      commute. */
  lemma {:induction false} OfLengthEvenRanked(xs: seq<string>, n: nat, names: set<string>, suffix: string)
    requires |suffix| > 0
    ensures OfLength(EvenRanked(xs, names, suffix), n) == EvenRanked(OfLength(xs, n), names, suffix)
  {
    if xs != [] {
      var x := xs[0];
      var a := if EvenRank(x, names, suffix) then [x] else [];
      var b := if |x| == n then [x] else [];
      OfLengthEvenRanked(xs[1..], n, names, suffix);
      OfLengthAppend(a, EvenRanked(xs[1..], names, suffix), n);
      EvenRankedAppend(b, OfLength(xs[1..], n), names, suffix);
      assert OfLength(a, n) == EvenRanked(b, names, suffix);
    }
  }

  /** The second part of the emission is ordered by length, and for each
      length it keeps the listing order. */
  lemma SecondPartOrder(secondaries: seq<string>, names: set<string>, suffix: string)
    requires |suffix| > 0
    ensures var second := EvenRanked(SortByLen(secondaries), names, suffix);
      && SortedByLen(second)
      && forall n: nat :: OfLength(second, n) == EvenRanked(OfLength(secondaries, n), names, suffix)
  {
    var sorted := SortByLen(secondaries);
    EvenRankedSorted(sorted, names, suffix);
    forall n: nat
      ensures OfLength(EvenRanked(sorted, names, suffix), n) == EvenRanked(OfLength(secondaries, n), names, suffix)
    {
      OfLengthEvenRanked(sorted, n, names, suffix);
      SortByLenStable(secondaries, n);
    }
  }

  /** The pairs come in emission order: the trivial primaries in listing
      order, then the remaining primaries by non-decreasing length, names of
      equal length in listing order. */
  lemma EmissionOrder(files: seq<string>, suffix: string, kinds: MediaKinds)
    requires |suffix| > 0
    requires PairIndex(files, suffix, kinds).Paired?
    ensures var ix := IndexFiles(files, suffix, kinds);
      var names := ix.endings.m.Keys;
      var second := EvenRanked(SortByLen(ix.secondaries), names, suffix);
      && Emission(ix, suffix) == ix.primaries + second
      && PairIndex(files, suffix, kinds).index.keys == Dedup(FilesOf(ix.endings, Emission(ix, suffix)))
      && SortedByLen(second)
      && forall n: nat :: OfLength(second, n) == EvenRanked(OfLength(ix.secondaries, n), names, suffix)
  {
    var ix := IndexFiles(files, suffix, kinds);
    PairIndexUnfold(files, suffix, kinds);
    PairsOfKeys(ix.endings, Emission(ix, suffix), suffix);
    SecondPartOrder(ix.secondaries, ix.endings.m.Keys, suffix);
  }
}
