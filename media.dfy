/** A small stock Option type. */
module Options {
  datatype Option<T> = None | Some(value: T)
}

/**
  Media classification (mediaimport-2/__init__.py:115-119, 125, 162-167):
  a file name splits into a base name and an extension; the file is media
  when its lower-cased extension, without the dot, is one of the audio or
  image extensions the host editor supports.
 */
module Media {
  import opened Text

  /** The two extension lists the host supplies (`editor.audio`, `editor.pics`). */
  datatype MediaKinds = MediaKinds(audio: set<string>, image: set<string>)

  /** `mediaName` of `mediaName, ext = os.path.splitext(fileName)`. */
  function BaseName(fileName: string): (r: string)
    ensures |r| <= |fileName| && r == fileName[..|r|]
  {
    Splitext(fileName).0
  }

  /** `ext[1:].lower()`: the extension without its dot, lower-cased. */
  function Ext(fileName: string): (r: string)
    ensures forall i :: 0 <= i < |r| ==> !('A' <= r[i] <= 'Z')
    ensures Lower(r) == r
  {
    LowerIsLowerCase(DropFirst(Splitext(fileName).1));
    Lower(DropFirst(Splitext(fileName).1))
  }

  /** `ext in AUDIO + IMAGE` */
  predicate IsMediaExt(ext: string, kinds: MediaKinds) {
    ext in kinds.audio || ext in kinds.image
  }

  predicate IsMediaFile(fileName: string, kinds: MediaKinds) {
    IsMediaExt(Ext(fileName), kinds)
  }

  /** The test `re.search(".<suffix>$", mediaName)`: at least one character,
      then the suffix at the very end (names hold no line breaks). */
  predicate IsCandidateSecondary(base: string, suffix: string) {
    |base| > |suffix| && EndsWith(base, suffix)
  }

  /** For a name with an extension starting at `d`, the base name is what
      precedes the dot and the extension is the rest, lower-cased. */
  lemma ExtensionSplit(fileName: string, d: int)
    requires ExtensionAt(fileName, d)
    ensures BaseName(fileName) == fileName[..d]
    ensures Ext(fileName) == Lower(fileName[d + 1..])
    ensures DropFirst(Splitext(fileName).1) == fileName[d + 1..]
  {
    var r := Splitext(fileName);
    assert r.1 != [];
    assert ExtensionAt(fileName, |r.0|);
    assert |r.0| == d;
    assert r.0 == fileName[..d];
    assert r.1[1..] == fileName[d + 1..];
  }

  /** A name without an extension gives the empty extension and, as long as
      the host lists no empty extension, is skipped rather than imported. */
  lemma NoExtensionSkipped(fileName: string, kinds: MediaKinds)
    requires forall d :: !ExtensionAt(fileName, d)
    requires "" !in kinds.audio && "" !in kinds.image
    ensures BaseName(fileName) == fileName && Ext(fileName) == ""
    ensures !IsMediaFile(fileName, kinds)
  {
  }

  /** A non-empty file name has a non-empty base name. */
  lemma BaseNameNonEmpty(fileName: string)
    requires fileName != ""
    ensures BaseName(fileName) != ""
  {
    var r := Splitext(fileName);
    if r.1 != [] {
      assert ExtensionAt(fileName, |r.0|);
      var i :| 0 <= i < |r.0| && fileName[i] != '.';
    }
  }

  /** Appending the suffix to a non-empty name gives a candidate secondary
      whose name with the suffix removed is the original. */
  lemma SuffixedIsCandidate(q: string, suffix: string)
    requires q != ""
    ensures IsCandidateSecondary(q + suffix, suffix)
    ensures (q + suffix)[..|q|] == q
  {
    assert (q + suffix)[|q|..] == suffix;
  }
}
