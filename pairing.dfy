/**
  The primary/secondary pairing index of one folder
  (mediaimport-2/__init__.py:96-157), built only when some field mapping
  uses the secondary media action.

  The source builds it greedily in two passes. This module states what the
  two passes compute as a declarative reference, based on the RANK of a
  base name: the number of times the suffix can be stripped off while the
  stripped name is still a media base name of the folder. A base name
  becomes the primary of a pair exactly when its rank is even, and its
  partner is the name with the suffix appended once more; the method
  `BuildPairIndex`, which follows the source loop by loop, is proved to
  return exactly that reference.
 */
module Pairing {
  import opened Options
  import opened Text
  import opened OrderedMaps
  import opened Media
  import opened LengthSort

  // ---------------------------------------------------------------------
  // The indexing pass (lines 113-128)

  /** `file_ending_index`, `primary_media` and `secondary_media`. */
  datatype FolderIndex = FolderIndex(endings: OMap<string, string>, primaries: seq<string>, secondaries: seq<string>)

  ghost predicate IndexInvariant(ix: FolderIndex, files: seq<string>, suffix: string, kinds: MediaKinds) {
    Valid(ix.endings) && ListsKeys(ix, suffix) && RecordsFiles(ix.endings.m, files, kinds)
  }

  /** Every indexed base name is listed once as a primary or a candidate
      secondary, according to whether it ends in the suffix. */
  ghost predicate ListsKeys(ix: FolderIndex, suffix: string) {
    && (forall b :: b in ix.endings.m <==> b in ix.primaries || b in ix.secondaries)
    && (forall b :: b in ix.primaries ==> !IsCandidateSecondary(b, suffix))
    && (forall b :: b in ix.secondaries ==> IsCandidateSecondary(b, suffix))
  }

  /** `endings` maps the base name of every media file of `files` to a
      media file of `files` with that base name. */
  ghost predicate RecordsFiles(endings: map<string, string>, files: seq<string>, kinds: MediaKinds) {
    && (forall b :: b in endings ==>
          endings[b] in files && IsMediaFile(endings[b], kinds) && BaseName(endings[b]) == b)
    && (forall f :: f in files && IsMediaFile(f, kinds) ==> BaseName(f) in endings)
  }

  /** The indexing pass over `files`: non-media files are skipped, each
      media file is recorded under its base name (a later file with the
      same base name replaces the earlier one), and its base name is listed
      as a candidate secondary or a trivial primary. */
  function IndexFiles(files: seq<string>, suffix: string, kinds: MediaKinds): (ix: FolderIndex)
    ensures IndexInvariant(ix, files, suffix, kinds)
  {
    if files == [] then FolderIndex(Empty(), [], [])
    else
      var init, f := files[..|files| - 1], files[|files| - 1];
      assert files == init + [f];
      IndexStepKeeps(IndexFiles(init, suffix, kinds), init, f, suffix, kinds);
      IndexStep(IndexFiles(init, suffix, kinds), f, suffix, kinds)
  }

  /** One file of the indexing pass. */
  function IndexStep(p: FolderIndex, f: string, suffix: string, kinds: MediaKinds): (r: FolderIndex)
    requires Valid(p.endings)
    ensures Valid(r.endings)
    ensures !IsMediaFile(f, kinds) ==> r == p
    ensures IsMediaFile(f, kinds) ==> r.endings.m == p.endings.m[BaseName(f) := f]
  {
    if !IsMediaFile(f, kinds) then p
    else
      var b := BaseName(f);
      var e := Put(p.endings, b, f);
      if IsCandidateSecondary(b, suffix) then FolderIndex(e, p.primaries, p.secondaries + [b])
      else FolderIndex(e, p.primaries + [b], p.secondaries)
  }

  /** Indexing one more file keeps the index a faithful record of the
      listing so far. */
  lemma IndexStepKeeps(p: FolderIndex, files: seq<string>, f: string, suffix: string, kinds: MediaKinds)
    requires IndexInvariant(p, files, suffix, kinds)
    ensures IndexInvariant(IndexStep(p, f, suffix, kinds), files + [f], suffix, kinds)
  {
    if IsMediaFile(f, kinds) {
      var b := BaseName(f);
      var e := Put(p.endings, b, f);
      RecordsStep(p.endings.m, files, f, kinds);
      if IsCandidateSecondary(b, suffix) {
        ListsStep(p, FolderIndex(e, p.primaries, p.secondaries + [b]), b, suffix);
      } else {
        ListsStep(p, FolderIndex(e, p.primaries + [b], p.secondaries), b, suffix);
      }
    } else {
      RecordsSkip(p.endings.m, files, f, kinds);
    }
  }

  /** A non-media file leaves the record as it is. */
  lemma RecordsSkip(endings: map<string, string>, files: seq<string>, f: string, kinds: MediaKinds)
    requires RecordsFiles(endings, files, kinds) && !IsMediaFile(f, kinds)
    ensures RecordsFiles(endings, files + [f], kinds)
  {
    assert forall g :: g in files + [f] <==> g in files || g == f;
  }

  /** A media file is recorded under its base name. */
  lemma RecordsStep(endings: map<string, string>, files: seq<string>, f: string, kinds: MediaKinds)
    requires RecordsFiles(endings, files, kinds) && IsMediaFile(f, kinds)
    ensures RecordsFiles(endings[BaseName(f) := f], files + [f], kinds)
  {
    var m, all := endings[BaseName(f) := f], files + [f];
    forall c | c in m ensures m[c] in all && IsMediaFile(m[c], kinds) && BaseName(m[c]) == c {
      if c != BaseName(f) {
        assert m[c] == endings[c] && endings[c] in files;
      }
    }
    forall g | g in all && IsMediaFile(g, kinds) ensures BaseName(g) in m {
      if g != f {
        assert g in files;
      }
    }
  }

  /** Listing a new base name as the list its suffix calls for. */
  lemma ListsStep(p: FolderIndex, r: FolderIndex, b: string, suffix: string)
    requires ListsKeys(p, suffix)
    requires r.endings.m.Keys == p.endings.m.Keys + {b}
    requires if IsCandidateSecondary(b, suffix)
             then r.primaries == p.primaries && r.secondaries == p.secondaries + [b]
             else r.primaries == p.primaries + [b] && r.secondaries == p.secondaries
    ensures ListsKeys(r, suffix)
  {
    assert forall c :: c in r.primaries + r.secondaries <==> c in p.primaries + p.secondaries || c == b;
  }

  lemma IndexFilesSnoc(files: seq<string>, i: nat, suffix: string, kinds: MediaKinds)
    requires i < |files|
    ensures IndexFiles(files[..i + 1], suffix, kinds) == IndexStep(IndexFiles(files[..i], suffix, kinds), files[i], suffix, kinds)
  {
    assert files[..i + 1][..i] == files[..i];
  }

  /** The base names of the folder's media files. */
  function Names(files: seq<string>, suffix: string, kinds: MediaKinds): set<string> {
    IndexFiles(files, suffix, kinds).endings.m.Keys
  }

  // ---------------------------------------------------------------------
  // The reference: ranks

  /** The name with one suffix removed. */
  function Parent(b: string, suffix: string): string
    requires IsCandidateSecondary(b, suffix)
  {
    b[..|b| - |suffix|]
  }

  /** How many suffixes can be stripped from `b` while staying in `names`. */
  function Rank(b: string, names: set<string>, suffix: string): (r: nat)
    requires |suffix| > 0
    ensures r * |suffix| <= |b|
    decreases |b|
  {
    if IsCandidateSecondary(b, suffix) && Parent(b, suffix) in names
    then Rank(Parent(b, suffix), names, suffix) + 1
    else 0
  }

  predicate EvenRank(b: string, names: set<string>, suffix: string)
    requires |suffix| > 0
  {
    Rank(b, names, suffix) % 2 == 0
  }

  /** The names of even rank, in their order in `xs`. */
  function EvenRanked(xs: seq<string>, names: set<string>, suffix: string): (r: seq<string>)
    requires |suffix| > 0
    ensures forall b :: b in r <==> b in xs && EvenRank(b, names, suffix)
  {
    if xs == [] then []
    else (if EvenRank(xs[0], names, suffix) then [xs[0]] else []) + EvenRanked(xs[1..], names, suffix)
  }

  lemma {:induction false} EvenRankedAppend(a: seq<string>, b: seq<string>, names: set<string>, suffix: string)
    requires |suffix| > 0
    ensures EvenRanked(a + b, names, suffix) == EvenRanked(a, names, suffix) + EvenRanked(b, names, suffix)
  {
    if a == [] {
      assert a + b == b;
    } else {
      assert (a + b)[1..] == a[1..] + b;
      EvenRankedAppend(a[1..], b, names, suffix);
    }
  }

  /** The base names whose pairs the two passes emit, in emission order:
      the trivial primaries in listing order, then the candidate
      secondaries of even rank, shortest first. */
  function Emission(ix: FolderIndex, suffix: string): (e: seq<string>)
    requires |suffix| > 0
    ensures forall b :: b in e ==> b in ix.primaries || b in ix.secondaries
  {
    var sorted := SortByLen(ix.secondaries);
    assert forall b :: b in sorted ==> b in ix.secondaries by {
      assert forall b :: b in sorted ==> b in multiset(sorted);
      assert forall b :: b in multiset(ix.secondaries) ==> b in ix.secondaries;
    }
    ix.primaries + EvenRanked(sorted, ix.endings.m.Keys, suffix)
  }

  predicate AllPresent(e: seq<string>, names: set<string>, suffix: string) {
    forall j :: 0 <= j < |e| ==> e[j] + suffix in names
  }

  /** The first emitted name whose partner is missing. */
  function FirstMissing(e: seq<string>, names: set<string>, suffix: string): (r: Option<string>)
    ensures r == None <==> AllPresent(e, names, suffix)
    ensures r.Some? ==> r.value in e && r.value + suffix !in names
  {
    if e == [] then None
    else if e[0] + suffix !in names then Some(e[0])
    else
      var r := FirstMissing(e[1..], names, suffix);
      assert AllPresent(e[1..], names, suffix) ==> AllPresent(e, names, suffix) by {
        if AllPresent(e[1..], names, suffix) {
          forall j | 0 <= j < |e| ensures e[j] + suffix in names {
            if j > 0 { assert e[j] == e[1..][j - 1]; }
          }
        }
      }
      r
  }

  lemma {:induction false} FirstMissingAt(e: seq<string>, k: nat, names: set<string>, suffix: string)
    requires k < |e|
    requires AllPresent(e[..k], names, suffix)
    requires e[k] + suffix !in names
    ensures FirstMissing(e, names, suffix) == Some(e[k])
  {
    if k > 0 {
      assert e[0] == e[..k][0];
      assert e[1..][..k - 1] == e[..k][1..];
      FirstMissingAt(e[1..], k - 1, names, suffix);
    }
  }

  /** Writes `file(b) -> file(b + suffix)` for every `b` of `e`, in order. */
  function PairsOf(endings: OMap<string, string>, e: seq<string>, suffix: string): (r: OMap<string, string>)
    requires Valid(endings)
    requires forall b :: b in e ==> b in endings.m
    requires AllPresent(e, endings.m.Keys, suffix)
    ensures Valid(r)
  {
    if e == [] then Empty()
    else
      var b := e[|e| - 1];
      assert forall x :: x in e[..|e| - 1] ==> x in e;
      Put(PairsOf(endings, e[..|e| - 1], suffix), endings.m[b], endings.m[b + suffix])
  }

  /** What the pairing pass yields: `file_pair_index`, or the `KeyError`
      raised when an expected secondary name is not in the index. */
  datatype PairResult = Paired(index: OMap<string, string>) | MissingSecondary(key: string)

  /** Every emitted name is an indexed media base name of even rank, and
      every such name is emitted. */
  lemma EmissionIndexed(ix: FolderIndex, files: seq<string>, suffix: string, kinds: MediaKinds)
    requires |suffix| > 0
    requires IndexInvariant(ix, files, suffix, kinds)
    ensures forall b :: b in Emission(ix, suffix) <==> b in ix.endings.m && EvenRank(b, ix.endings.m.Keys, suffix)
  {
    var names := ix.endings.m.Keys;
    var sorted := SortByLen(ix.secondaries);
    var second := EvenRanked(sorted, names, suffix);
    assert Emission(ix, suffix) == ix.primaries + second;
    forall b ensures b in ix.primaries + second <==> b in names && EvenRank(b, names, suffix) {
      assert b in sorted <==> b in ix.secondaries by {
        assert b in sorted <==> b in multiset(sorted);
        assert b in ix.secondaries <==> b in multiset(ix.secondaries);
      }
      if b in ix.primaries {
        assert !IsCandidateSecondary(b, suffix);
        assert Rank(b, names, suffix) == 0;
      }
    }
  }

  /** The reference pairing of a folder listing. */
  function PairIndex(files: seq<string>, suffix: string, kinds: MediaKinds): (r: PairResult)
    requires |suffix| > 0
    ensures r.Paired? ==> Valid(r.index)
  {
    var ix := IndexFiles(files, suffix, kinds);
    var e := Emission(ix, suffix);
    match FirstMissing(e, ix.endings.m.Keys, suffix)
    case Some(b) => MissingSecondary(b + suffix)
    case None =>
      EmissionIndexed(ix, files, suffix, kinds);
      assert forall j :: 0 <= j < |e| ==> e[j] in e;
      Paired(PairsOf(ix.endings, e, suffix))
  }

  // ---------------------------------------------------------------------
  // The two passes as the source runs them

  /** `{b + suffix | b in e}`: the names the passes mark as matched. */
  function Suffixed(e: seq<string>, suffix: string): set<string> {
    set q | q in e :: q + suffix
  }

  lemma SuffixedSnoc(e: seq<string>, x: string, suffix: string)
    ensures Suffixed(e + [x], suffix) == Suffixed(e, suffix) + {x + suffix}
  {
    assert forall q :: q in e + [x] <==> q in e || q == x;
  }

  /** A name marked as matched is the suffixed form of an emitted name, so
      its rank is one more than that name's: odd. */
  lemma MatchedIsOddRank(done: seq<string>, pf: string, names: set<string>, suffix: string)
    requires |suffix| > 0
    requires forall q :: q in done ==> q in names && q != "" && EvenRank(q, names, suffix)
    requires pf in Suffixed(done, suffix)
    ensures !EvenRank(pf, names, suffix)
  {
    var q :| q in done && q + suffix == pf;
    SuffixedIsCandidate(q, suffix);
    assert Parent(pf, suffix) == q;
    assert Rank(pf, names, suffix) == Rank(q, names, suffix) + 1;
  }

  /** A name of odd rank reached in sorted order has a parent of even rank
      that was emitted before it, so it is already marked as matched. */
  lemma OddRankIsMatched(prims: seq<string>, sorted: seq<string>, k: nat, names: set<string>, suffix: string)
    requires |suffix| > 0
    requires k < |sorted|
    requires forall q :: q in prims ==> !IsCandidateSecondary(q, suffix)
    requires forall q :: q in names ==> q in prims || q in sorted
    requires SortedByLen(sorted)
    requires !EvenRank(sorted[k], names, suffix)
    ensures sorted[k] in Suffixed(prims + EvenRanked(sorted[..k], names, suffix), suffix)
  {
    var pf := sorted[k];
    var q := Parent(pf, suffix);
    assert pf == q + suffix;
    assert EvenRank(q, names, suffix);
    if q !in prims {
      var j :| 0 <= j < |sorted| && sorted[j] == q;
      assert |q| < |pf|;
      assert j < k;
      assert q in sorted[..k];
    }
    assert q in prims + EvenRanked(sorted[..k], names, suffix);
  }

  /** In the second pass, when the `k`-th sorted secondary is reached, it
      has already been marked as matched exactly when its rank is odd. */
  lemma MatchedIffOddRank(prims: seq<string>, sorted: seq<string>, k: nat, names: set<string>, suffix: string)
    requires |suffix| > 0
    requires k < |sorted|
    requires forall q :: q in prims ==> q in names && q != "" && !IsCandidateSecondary(q, suffix)
    requires forall q :: q in sorted ==> q in names && q != ""
    requires forall q :: q in names ==> q in prims || q in sorted
    requires SortedByLen(sorted)
    ensures sorted[k] in Suffixed(prims + EvenRanked(sorted[..k], names, suffix), suffix)
            <==> !EvenRank(sorted[k], names, suffix)
  {
    var done := prims + EvenRanked(sorted[..k], names, suffix);
    if sorted[k] in Suffixed(done, suffix) {
      forall q | q in done ensures q in names && q != "" && EvenRank(q, names, suffix) {
        if q in prims {
          assert Rank(q, names, suffix) == 0;
        }
      }
      MatchedIsOddRank(done, sorted[k], names, suffix);
    }
    if !EvenRank(sorted[k], names, suffix) {
      OddRankIsMatched(prims, sorted, k, names, suffix);
    }
  }

  lemma PairsOfSnoc(endings: OMap<string, string>, e: seq<string>, x: string, suffix: string)
    requires Valid(endings)
    requires forall b :: b in e ==> b in endings.m
    requires AllPresent(e, endings.m.Keys, suffix)
    requires x in endings.m && x + suffix in endings.m
    ensures PairsOf(endings, e + [x], suffix) == Put(PairsOf(endings, e, suffix), endings.m[x], endings.m[x + suffix])
  {
    assert (e + [x])[..|e|] == e;
  }

  lemma {:induction false} FirstMissingAppend(a: seq<string>, b: seq<string>, names: set<string>, suffix: string)
    ensures FirstMissing(a + b, names, suffix)
            == if FirstMissing(a, names, suffix).Some? then FirstMissing(a, names, suffix) else FirstMissing(b, names, suffix)
  {
    if a == [] {
      assert a + b == b;
    } else {
      assert (a + b)[0] == a[0];
      assert (a + b)[1..] == a[1..] + b;
      FirstMissingAppend(a[1..], b, names, suffix);
    }
  }

  ghost predicate NonEmptyNames(names: set<string>) {
    forall b :: b in names ==> b != ""
  }

  /** One step of the second pass: the `k`-th sorted secondary is emitted
      exactly when it is not yet marked as matched. */
  lemma SecondPassStep(prims: seq<string>, sorted: seq<string>, k: nat, names: set<string>, suffix: string)
    requires |suffix| > 0
    requires k < |sorted|
    requires forall q :: q in prims ==> q in names && q != "" && !IsCandidateSecondary(q, suffix)
    requires forall q :: q in sorted ==> q in names && q != ""
    requires forall q :: q in names ==> q in prims || q in sorted
    requires SortedByLen(sorted)
    ensures var done := prims + EvenRanked(sorted[..k], names, suffix);
      prims + EvenRanked(sorted[..k + 1], names, suffix)
      == if sorted[k] in Suffixed(done, suffix) then done else done + [sorted[k]]
  {
    var pf := sorted[k];
    var done := prims + EvenRanked(sorted[..k], names, suffix);
    MatchedIffOddRank(prims, sorted, k, names, suffix);
    assert sorted[..k + 1] == sorted[..k] + [pf];
    EvenRankedAppend(sorted[..k], [pf], names, suffix);
    assert prims + EvenRanked(sorted[..k + 1], names, suffix) == done + EvenRanked([pf], names, suffix);
    if pf in Suffixed(done, suffix) {
      assert EvenRanked([pf], names, suffix) == [];
      assert done + [] == done;
    } else {
      assert EvenRanked([pf], names, suffix) == [pf];
    }
  }

  /** A missing partner met in the second pass is the first missing one of
      the whole emission. */
  lemma SecondPassMissing(prims: seq<string>, sorted: seq<string>, k: nat, names: set<string>, suffix: string)
    requires |suffix| > 0
    requires k < |sorted|
    requires prims + EvenRanked(sorted[..k + 1], names, suffix)
             == (prims + EvenRanked(sorted[..k], names, suffix)) + [sorted[k]]
    requires AllPresent(prims + EvenRanked(sorted[..k], names, suffix), names, suffix)
    requires sorted[k] + suffix !in names
    ensures FirstMissing(prims + EvenRanked(sorted, names, suffix), names, suffix) == Some(sorted[k])
  {
    var pf := sorted[k];
    var done := prims + EvenRanked(sorted[..k], names, suffix);
    var e := prims + EvenRanked(sorted, names, suffix);
    assert sorted == sorted[..k + 1] + sorted[k + 1..];
    EvenRankedAppend(sorted[..k + 1], sorted[k + 1..], names, suffix);
    assert e == (done + [pf]) + EvenRanked(sorted[k + 1..], names, suffix);
    assert e[..|done|] == done;
    FirstMissingAt(e, |done|, names, suffix);
  }

  /** The body of the indexing loop for one file (lines 114-128). */
  method IndexListed(ix: FolderIndex, fileName: string, suffix: string, kinds: MediaKinds) returns (ix': FolderIndex)
    requires Valid(ix.endings)
    ensures ix' == IndexStep(ix, fileName, suffix, kinds)
  {
    var split := Splitext(fileName);
    var mediaName := split.0;
    var ext := Lower(DropFirst(split.1));
    ix' := ix;
    if ext in kinds.audio || ext in kinds.image {
      var endings := Put(ix.endings, mediaName, fileName);
      if IsCandidateSecondary(mediaName, suffix) {
        ix' := FolderIndex(endings, ix.primaries, ix.secondaries + [mediaName]);
      } else {
        ix' := FolderIndex(endings, ix.primaries + [mediaName], ix.secondaries);
      }
    }
  }

  /** The indexing loop (lines 113-128). */
  method IndexListing(files: seq<string>, suffix: string, kinds: MediaKinds) returns (ix: FolderIndex)
    ensures ix == IndexFiles(files, suffix, kinds)
  {
    ix := FolderIndex(Empty(), [], []);
    var i := 0;
    while i < |files|
      invariant 0 <= i <= |files|
      invariant ix == IndexFiles(files[..i], suffix, kinds)
    {
      IndexFilesSnoc(files, i, suffix, kinds);
      ix := IndexListed(ix, files[i], suffix, kinds);
      i := i + 1;
    }
    assert files[..|files|] == files;
  }

  /** The first matching loop (lines 131-137): every trivial primary is
      paired with its suffixed name, which is marked as matched. */
  method MatchTrivialPrimaries(endings: OMap<string, string>, primaries: seq<string>, suffix: string)
    returns (r: PairResult, matched: set<string>)
    requires Valid(endings)
    requires forall b :: b in primaries ==> b in endings.m
    ensures var missing := FirstMissing(primaries, endings.m.Keys, suffix);
      && (missing.Some? ==> r == MissingSecondary(missing.value + suffix))
      && (missing.None? ==> r == Paired(PairsOf(endings, primaries, suffix))
                            && matched == Suffixed(primaries, suffix))
  {
    ghost var names := endings.m.Keys;
    var pairs: OMap<string, string> := Empty();
    matched := {};
    var k := 0;
    while k < |primaries|
      invariant 0 <= k <= |primaries|
      invariant AllPresent(primaries[..k], names, suffix)
      invariant pairs == PairsOf(endings, primaries[..k], suffix)
      invariant matched == Suffixed(primaries[..k], suffix)
    {
      var pf := primaries[k];
      var primaryFile := endings.m[pf];
      if pf + suffix !in endings.m {
        FirstMissingAt(primaries, k, names, suffix);
        return MissingSecondary(pf + suffix), matched;
      }
      var secondaryFile := endings.m[pf + suffix];
      assert primaries[..k + 1] == primaries[..k] + [pf];
      SuffixedSnoc(primaries[..k], pf, suffix);
      PairsOfSnoc(endings, primaries[..k], pf, suffix);
      pairs := Put(pairs, primaryFile, secondaryFile);
      matched := matched + {pf + suffix};
      k := k + 1;
    }
    assert primaries[..k] == primaries;
    r := Paired(pairs);
  }

  /** The second matching loop (lines 147-155): the candidate secondaries,
      shortest first; each one not yet matched is paired with its suffixed
      name, which is marked as matched. */
  method MatchChainedSecondaries(endings: OMap<string, string>, primaries: seq<string>, sorted: seq<string>,
                                 suffix: string, pairs0: OMap<string, string>, matched0: set<string>)
    returns (r: PairResult)
    requires |suffix| > 0
    requires Valid(endings)
    requires forall b :: b in endings.m <==> b in primaries || b in sorted
    requires SortedByLen(sorted)
    requires forall b :: b in primaries ==> !IsCandidateSecondary(b, suffix)
    requires NonEmptyNames(endings.m.Keys)
    requires AllPresent(primaries, endings.m.Keys, suffix)
    requires pairs0 == PairsOf(endings, primaries, suffix)
    requires matched0 == Suffixed(primaries, suffix)
    ensures var e := primaries + EvenRanked(sorted, endings.m.Keys, suffix);
      match FirstMissing(e, endings.m.Keys, suffix)
      case Some(b) => r == MissingSecondary(b + suffix)
      case None => r.Paired? && r.index == PairsOf(endings, e, suffix)
  {
    ghost var names := endings.m.Keys;
    var pairs, matched := pairs0, matched0;
    var k := 0;
    assert primaries + EvenRanked(sorted[..k], names, suffix) == primaries by {
      assert sorted[..k] == [];
    }
    while k < |sorted|
      invariant 0 <= k <= |sorted|
      invariant AllPresent(primaries + EvenRanked(sorted[..k], names, suffix), names, suffix)
      invariant pairs == PairsOf(endings, primaries + EvenRanked(sorted[..k], names, suffix), suffix)
      invariant matched == Suffixed(primaries + EvenRanked(sorted[..k], names, suffix), suffix)
    {
      ghost var done := primaries + EvenRanked(sorted[..k], names, suffix);
      var pf := sorted[k];
      SecondPassStep(primaries, sorted, k, names, suffix);
      if pf !in matched {
        var primaryFile := endings.m[pf];
        if pf + suffix !in endings.m {
          SecondPassMissing(primaries, sorted, k, names, suffix);
          return MissingSecondary(pf + suffix);
        }
        var secondaryFile := endings.m[pf + suffix];
        SuffixedSnoc(done, pf, suffix);
        PairsOfSnoc(endings, done, pf, suffix);
        pairs := Put(pairs, primaryFile, secondaryFile);
        matched := matched + {pf + suffix};
      }
      k := k + 1;
    }
    assert sorted[..k] == sorted;
    r := Paired(pairs);
  }

  /** The folder's pairing pass as the source runs it (lines 101-157); it
      returns the reference pairing. */
  method BuildPairIndex(files: seq<string>, suffix: string, kinds: MediaKinds) returns (r: PairResult)
    requires |suffix| > 0
    requires forall i :: 0 <= i < |files| ==> files[i] != ""
    ensures r == PairIndex(files, suffix, kinds)
  {
    var ix := IndexListing(files, suffix, kinds);
    ghost var names := ix.endings.m.Keys;
    forall b | b in names ensures b != "" {
      BaseNameNonEmpty(ix.endings.m[b]);
    }
    var first, matched := MatchTrivialPrimaries(ix.endings, ix.primaries, suffix);
    ghost var e := Emission(ix, suffix);
    FirstMissingAppend(ix.primaries, EvenRanked(SortByLen(ix.secondaries), names, suffix), names, suffix);
    if first.MissingSecondary? {
      return first;
    }
    var sorted := SortByLen(ix.secondaries);
    assert forall b :: b in sorted <==> b in ix.secondaries by {
      assert forall b :: b in sorted <==> b in multiset(sorted);
      assert forall b :: b in ix.secondaries <==> b in multiset(ix.secondaries);
    }
    r := MatchChainedSecondaries(ix.endings, ix.primaries, sorted, suffix, first.index, matched);
  }
}
