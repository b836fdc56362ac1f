/**
  What one media file puts into a new note (mediaimport-2/__init__.py:
  170-226): each `(field, action, special)` mapping is evaluated to a
  string or a list of strings, and the value is either appended to the
  note's tags (for the special Tags target) or written into the field.
 */
module Fields {
  import opened Options
  import opened Text
  import opened OrderedMaps
  import opened Media
  import opened Sequences
  import Actions

  // ---------------------------------------------------------------------
  // Values and the context of one file

  /** The `data` of a mapping: a string, or a list of strings (folder tags). */
  datatype Value = Str(s: string) | List(items: seq<string>)

  /** Everything the evaluation of one file's mappings depends on: the file
      name, its position in the folder's file list, the subfolder names
      leading from the import folder to its folder, and the names the
      collection gave the file and its secondary ("" without pairing). */
  datatype FileContext = FileContext(fileName: string, index: nat, folder: seq<string>,
                                     mediaId: string, mediaId2: string)

  /** `os.path.relpath(root, path)` for a folder reached through `folder`. */
  function RelPath(folder: seq<string>): string {
    if folder == [] then "." else Join(folder, "/")
  }

  /** The relative path split at the separator, with the first "." removed. */
  function FolderTags(folder: seq<string>): seq<string> {
    RemoveFirst(Split(RelPath(folder), '/'), ".")
  }

  /** A folder name as the file system gives it: no separator, not ".". */
  predicate PlainFolderName(n: string) {
    '/' !in n && n != "."
  }

  /** The import folder itself carries no folder tags. */
  lemma FolderTagsRoot()
    ensures FolderTags([]) == []
    ensures Join(FolderTags([]), "::") == ""
  {
    assert Split(".", '/') == ["."] by {
      assert Split([], '/') == [[]];
      assert ['.'] + [] == ".";
    }
  }

  /** A subfolder's tags are the names of the folders leading to it. */
  lemma {:induction false} FolderTagsNested(folder: seq<string>)
    requires folder != []
    requires forall i :: 0 <= i < |folder| ==> PlainFolderName(folder[i])
    ensures FolderTags(folder) == folder
  {
    SplitJoin(folder, '/');
    assert "." !in folder by {
      forall i | 0 <= i < |folder| ensures folder[i] != "." {
        assert PlainFolderName(folder[i]);
      }
    }
  }

  // ---------------------------------------------------------------------
  // Evaluation of one action (lines 177-216)

  /** The collection's markup for a media file: a sound tag for audio, an
      image tag for images. */
  function MediaMarkup(ext: string, id: string, kinds: MediaKinds): (r: Option<Value>)
    ensures r.Some? <==> IsMediaExt(ext, kinds)
    ensures r.Some? ==> r.value.Str? && |r.value.s| > 0
    ensures r.Some? ==> (r.value.s[0] == '[' <==> ext in kinds.audio)
  {
    if ext in kinds.audio then Some(Str("[sound:" + id + "]"))
    else if ext in kinds.image then Some(Str("<img src=\"" + id + "\">"))
    else None
  }

  /** The value of the mapping whose action text is `action`, or None when
      the mapping is skipped (`continue`). */
  function Evaluate(action: string, ctx: FileContext, kinds: MediaKinds): Option<Value> {
    match Actions.Parse(action)
    case None => None
    case Some(a) => Perform(a, ctx, kinds)
  }

  /** The value one action gives for a file. */
  function Perform(a: Actions.Action, ctx: FileContext, kinds: MediaKinds): Option<Value> {
    var ext := Ext(ctx.fileName);
    match a
    case Nothing => None
    case Media => MediaMarkup(ext, ctx.mediaId, kinds)
    case Media2 => MediaMarkup(ext, ctx.mediaId2, kinds)
    case FileName => Some(Str(BaseName(ctx.fileName)))
    case FileNameFull => Some(Str(ctx.fileName))
    case Extension => Some(Str(ext))
    case ExtensionCaseSensitive => Some(Str(DropFirst(Splitext(BaseName(ctx.fileName)).1)))
    case Sequence => Some(Str(NatToString(ctx.index)))
    case FolderTagsIndividual => Some(List(FolderTags(ctx.folder)))
    case FolderTagsHierarchical => Some(Str(Join(FolderTags(ctx.folder), "::")))
  }

  /** An action's own text evaluates to that action's value. */
  lemma EvaluateKeyword(a: Actions.Action, ctx: FileContext, kinds: MediaKinds)
    ensures Evaluate(Actions.Keyword(a), ctx, kinds) == Perform(a, ctx, kinds)
  {
    Actions.ParseKeyword(a);
  }

  /** The secondary media action renders the secondary's name with the
      markup chosen by the PRIMARY file's extension. */
  lemma SecondaryUsesPrimaryExtension(ctx: FileContext, kinds: MediaKinds)
    ensures Evaluate("Media_2", ctx, kinds) == Evaluate("Media", ctx.(mediaId := ctx.mediaId2), kinds)
  {
  }

  /** For a media file the media action always yields markup: a sound tag
      exactly when the extension is an audio one. */
  lemma MediaMarkupOfMediaFile(ctx: FileContext, kinds: MediaKinds)
    requires IsMediaFile(ctx.fileName, kinds)
    ensures var v := Evaluate("Media", ctx, kinds);
      && v.Some? && v.value.Str?
      && (v.value.s == "[sound:" + ctx.mediaId + "]" <==> Ext(ctx.fileName) in kinds.audio)
      && (Ext(ctx.fileName) !in kinds.audio ==> v.value.s == "<img src=\"" + ctx.mediaId + "\">")
  {
    var v := Evaluate("Media", ctx, kinds);
    if Ext(ctx.fileName) !in kinds.audio {
      assert v.value.s[0] == '<';
    }
  }

  /** File name, full name and lower-cased extension of a name whose
      extension starts at `d`. */
  lemma NameActions(ctx: FileContext, kinds: MediaKinds, d: int)
    requires ExtensionAt(ctx.fileName, d)
    ensures Evaluate("File Name", ctx, kinds) == Some(Str(ctx.fileName[..d]))
    ensures Evaluate("File Name (full)", ctx, kinds) == Some(Str(ctx.fileName))
    ensures Evaluate("Extension", ctx, kinds) == Some(Str(Lower(ctx.fileName[d + 1..])))
  {
    ExtensionSplit(ctx.fileName, d);
  }

  lemma LowerJpg()
    ensures Lower("JPG") == "jpg"
  {
    var l := Lower("JPG");
    assert l[0] == LowerChar('J') && l[1] == LowerChar('P') && l[2] == LowerChar('G');
  }

  /** "image.JPG" splits into "image" and ".JPG". */
  lemma ImageJpgSplit()
    ensures BaseName("image.JPG") == "image"
    ensures Ext("image.JPG") == Lower("JPG")
  {
    var p := "image.JPG";
    assert ExtensionAt(p, 5) by {
      assert p[0] != '.';
    }
    ExtensionSplit(p, 5);
    assert p[..5] == "image";
    assert p[6..] == "JPG";
  }

  /** "image" has no extension. */
  lemma ImageHasNoExtension()
    ensures DropFirst(Splitext("image").1) == ""
  {
    forall d | 0 <= d < 5 ensures "image"[d] != '.' {
    }
    assert forall d :: !ExtensionAt("image", d);
  }

  /** The pieces `splitext` gives for "image.JPG" and for its base name. */
  lemma ImageJpgParts()
    ensures BaseName("image.JPG") == "image"
    ensures Ext("image.JPG") == "jpg"
    ensures DropFirst(Splitext("image").1) == ""
  {
    ImageJpgSplit();
    LowerJpg();
    ImageHasNoExtension();
  }

  /** The case-sensitive extension action takes the extension of the name
      WITHOUT its extension: for "image.JPG" it yields "" (not "JPG"), while
      the lower-case action yields "jpg". */
  lemma CaseSensitiveExtensionOfImageJpg(ctx: FileContext, kinds: MediaKinds)
    requires ctx.fileName == "image.JPG"
    ensures Evaluate("Extension (case-sensitive)", ctx, kinds) == Some(Str(""))
    ensures Evaluate("Extension", ctx, kinds) == Some(Str("jpg"))
    ensures Evaluate("File Name", ctx, kinds) == Some(Str("image"))
  {
    ImageJpgParts();
    EvaluateNameParts(ctx, kinds);
  }

  /** The extension the case-sensitive action evidently means, as its
      tooltip describes it: the file's own extension without the dot, case
      kept. */
  function IntendedCaseSensitiveExtension(fileName: string): (r: string)
    ensures Lower(r) == Ext(fileName)
  {
    DropFirst(Splitext(fileName).1)
  }

  /** For a name whose extension starts at `d`, the intended case-sensitive
      extension is everything after that dot. */
  lemma IntendedCaseSensitiveAt(fileName: string, d: int)
    requires ExtensionAt(fileName, d)
    ensures IntendedCaseSensitiveExtension(fileName) == fileName[d + 1..]
  {
    ExtensionSplit(fileName, d);
  }

  /** The tooltip's own example: "image.JPG" gives "JPG", which lower-cases
      to the extension action's "jpg". */
  lemma IntendedExtensionOfImageJpg()
    ensures IntendedCaseSensitiveExtension("image.JPG") == "JPG"
    ensures Lower(IntendedCaseSensitiveExtension("image.JPG")) == Ext("image.JPG")
  {
    var p := "image.JPG";
    assert ExtensionAt(p, 5) by {
      assert p[0] != '.';
    }
    IntendedCaseSensitiveAt(p, 5);
    assert p[6..] == "JPG";
  }

  lemma EvaluateNameParts(ctx: FileContext, kinds: MediaKinds)
    ensures Evaluate("Extension (case-sensitive)", ctx, kinds)
            == Some(Str(DropFirst(Splitext(BaseName(ctx.fileName)).1)))
    ensures Evaluate("Extension", ctx, kinds) == Some(Str(Ext(ctx.fileName)))
    ensures Evaluate("File Name", ctx, kinds) == Some(Str(BaseName(ctx.fileName)))
  {
    assert Actions.Parse("Extension (case-sensitive)") == Some(Actions.ExtensionCaseSensitive);
    assert Actions.Parse("Extension") == Some(Actions.Extension);
    assert Actions.Parse("File Name") == Some(Actions.FileName);
  }

  /** The sequence action prints the file's position in decimal. */
  lemma SequenceIsPosition(ctx: FileContext, kinds: MediaKinds)
    ensures var v := Evaluate("Sequence", ctx, kinds);
      && v.Some? && v.value.Str?
      && (forall i :: 0 <= i < |v.value.s| ==> IsDigit(v.value.s[i]))
      && DecimalValue(v.value.s) == ctx.index
  {
    NatToStringDecimal(ctx.index);
  }

  /** Both folder-tag actions give nothing in the import folder itself, and
      the folder names (individually or joined by "::") in a subfolder. */
  lemma FolderTagActions(ctx: FileContext, kinds: MediaKinds)
    requires forall i :: 0 <= i < |ctx.folder| ==> PlainFolderName(ctx.folder[i])
    ensures Evaluate("Subfolder tags (individual)", ctx, kinds) == Some(List(ctx.folder))
    ensures Evaluate("Subfolder tag (hierarchical)", ctx, kinds) == Some(Str(Join(ctx.folder, "::")))
  {
    EvaluateFolderTags(ctx, kinds);
    if ctx.folder == [] {
      FolderTagsRoot();
    } else {
      FolderTagsNested(ctx.folder);
    }
  }

  lemma EvaluateFolderTags(ctx: FileContext, kinds: MediaKinds)
    ensures Evaluate("Subfolder tags (individual)", ctx, kinds) == Some(List(FolderTags(ctx.folder)))
    ensures Evaluate("Subfolder tag (hierarchical)", ctx, kinds) == Some(Str(Join(FolderTags(ctx.folder), "::")))
  {
    assert Actions.Parse("Subfolder tags (individual)") == Some(Actions.FolderTagsIndividual);
    assert Actions.Parse("Subfolder tag (hierarchical)") == Some(Actions.FolderTagsHierarchical);
  }

  /** An action yields no value exactly when it is the "nothing" action or
      a media action for a file that is not media; only the individual
      folder-tags action yields a list. */
  lemma PerformSkips(a: Actions.Action, ctx: FileContext, kinds: MediaKinds)
    ensures Perform(a, ctx, kinds).None?
            <==> a.Nothing? || ((a.Media? || a.Media2?) && !IsMediaExt(Ext(ctx.fileName), kinds))
    ensures (Perform(a, ctx, kinds).Some? && Perform(a, ctx, kinds).value.List?)
            <==> a.FolderTagsIndividual?
  {
  }

  /** A mapping is skipped exactly when its text names no action, names the
      "nothing" action, or names a media action for a file that is not media. */
  lemma EvaluateSkips(action: string, ctx: FileContext, kinds: MediaKinds)
    ensures Evaluate(action, ctx, kinds).None?
            <==> || Actions.Parse(action).None?
                 || Actions.Parse(action) == Some(Actions.Nothing)
                 || (&& Actions.Parse(action) in {Some(Actions.Media), Some(Actions.Media2)}
                     && !IsMediaExt(Ext(ctx.fileName), kinds))
  {
    if Actions.Parse(action).Some? {
      PerformSkips(Actions.Parse(action).value, ctx, kinds);
    }
  }

  /** Texts that name no action, and the empty "nothing" action, are skipped. */
  lemma SkippedActions(action: string, ctx: FileContext, kinds: MediaKinds)
    requires Actions.Parse(action) == None || action == ""
    ensures Evaluate(action, ctx, kinds) == None
  {
  }

  // ---------------------------------------------------------------------
  // Note assembly (lines 218-226)

  /** One row of the dialog: target field, action text, special flag. */
  datatype Mapping = Mapping(field: string, action: string, special: bool)

  /** The written fields (in first-write order) and the tags of a note. */
  datatype Note = Note(fields: OMap<string, string>, tags: seq<string>)

  predicate IsTagsTarget(m: Mapping) {
    m.special && m.field == "Tags"
  }

  /** `tag.replace(" ", "_")` */
  function Underscored(t: string): (r: string)
    ensures |r| == |t| && ' ' !in r
  {
    ReplaceChar(t, ' ', '_')
  }

  /** The tags a value adds: a string is one tag, a list one tag per item. */
  function TagsOf(v: Value): (r: seq<string>)
    ensures v.Str? ==> r == [Underscored(v.s)]
    ensures v.List? ==> |r| == |v.items| && forall i :: 0 <= i < |r| ==> r[i] == Underscored(v.items[i])
  {
    match v
    case Str(s) => [Underscored(s)]
    case List(items) => seq(|items|, i requires 0 <= i < |items| => Underscored(items[i]))
  }

  /** What a value writes into an ordinary field: lists are joined by " ". */
  function Render(v: Value): string {
    match v
    case Str(s) => s
    case List(items) => Join(items, " ")
  }

  /** The effect of one evaluated mapping on the note. */
  function ApplyMapping(n: Note, m: Mapping, v: Option<Value>): (r: Note)
    requires Valid(n.fields)
    ensures Valid(r.fields)
  {
    if v.None? then n
    else if IsTagsTarget(m) then Note(n.fields, n.tags + TagsOf(v.value))
    else Note(Put(n.fields, m.field, Render(v.value)), n.tags)
  }

  /** The note after all mappings, applied in order to an empty note. */
  function AssembleNote(ms: seq<Mapping>, ctx: FileContext, kinds: MediaKinds): (r: Note)
    ensures Valid(r.fields)
  {
    if ms == [] then Note(Empty(), [])
    else
      var m := ms[|ms| - 1];
      ApplyMapping(AssembleNote(ms[..|ms| - 1], ctx, kinds), m, Evaluate(m.action, ctx, kinds))
  }

  /** The mapping `m` writes the ordinary field `f`. */
  predicate WritesField(m: Mapping, f: string, ctx: FileContext, kinds: MediaKinds) {
    !IsTagsTarget(m) && m.field == f && Evaluate(m.action, ctx, kinds).Some?
  }

  /** `WritesField` as a test on mappings alone. */
  function WriterOf(f: string, ctx: FileContext, kinds: MediaKinds): Mapping -> bool {
    m => WritesField(m, f, ctx, kinds)
  }

  /** The position of the last mapping that writes the field `f`. */
  function LastWriter(ms: seq<Mapping>, f: string, ctx: FileContext, kinds: MediaKinds): (r: Option<nat>)
    ensures r.Some? ==> r.value < |ms|
  {
    LastWhere(ms, WriterOf(f, ctx, kinds))
  }

  /** The text a mapping writes into an ordinary field, if it is not skipped. */
  function RenderedValue(m: Mapping, ctx: FileContext, kinds: MediaKinds): Option<string> {
    match Evaluate(m.action, ctx, kinds)
    case None => None
    case Some(v) => Some(Render(v))
  }

  /** A field holds the value of the LAST mapping that writes it, and a
      field no mapping writes is not set. */
  lemma {:induction false} LastWriteWins(ms: seq<Mapping>, ctx: FileContext, kinds: MediaKinds, f: string)
    ensures LastWriter(ms, f, ctx, kinds).None? ==> f !in AssembleNote(ms, ctx, kinds).fields.m
    ensures LastWriter(ms, f, ctx, kinds).Some? ==>
      && f in AssembleNote(ms, ctx, kinds).fields.m
      && Some(AssembleNote(ms, ctx, kinds).fields.m[f]) == RenderedValue(ms[LastWriter(ms, f, ctx, kinds).value], ctx, kinds)
  {
    if ms != [] {
      var init, m := ms[..|ms| - 1], ms[|ms| - 1];
      LastWriteWins(init, ctx, kinds, f);
      var before, after := AssembleNote(init, ctx, kinds), AssembleNote(ms, ctx, kinds);
      var v := Evaluate(m.action, ctx, kinds);
      assert after == ApplyMapping(before, m, v);
      if WritesField(m, f, ctx, kinds) {
        assert LastWriter(ms, f, ctx, kinds) == Some(|ms| - 1);
        assert after.fields.m[f] == Render(v.value);
      } else {
        assert f in after.fields.m <==> f in before.fields.m;
        assert f in before.fields.m ==> after.fields.m[f] == before.fields.m[f];
        var w := LastWriter(init, f, ctx, kinds);
        assert LastWriter(ms, f, ctx, kinds) == w;
        if w.Some? {
          assert ms[w.value] == init[w.value];
        }
      }
    }
  }

  /** The tags one mapping adds: those of its value when it targets Tags
      and is not skipped. */
  function Contribution(m: Mapping, ctx: FileContext, kinds: MediaKinds): seq<string> {
    var v := Evaluate(m.action, ctx, kinds);
    if IsTagsTarget(m) && v.Some? then TagsOf(v.value) else []
  }

  /** The tags of the note in order: the tags of each Tags mapping's value,
      mapping after mapping. */
  function TagsContributed(ms: seq<Mapping>, ctx: FileContext, kinds: MediaKinds): seq<string> {
    if ms == [] then [] else Contribution(ms[0], ctx, kinds) + TagsContributed(ms[1..], ctx, kinds)
  }

  lemma {:induction false} TagsContributedAppend(a: seq<Mapping>, b: seq<Mapping>, ctx: FileContext, kinds: MediaKinds)
    ensures TagsContributed(a + b, ctx, kinds) == TagsContributed(a, ctx, kinds) + TagsContributed(b, ctx, kinds)
  {
    if a == [] {
      assert a + b == b;
    } else {
      assert (a + b)[0] == a[0];
      assert (a + b)[1..] == a[1..] + b;
      TagsContributedAppend(a[1..], b, ctx, kinds);
      TagsContributedCons(a + b, ctx, kinds);
      TagsContributedCons(a, ctx, kinds);
      SeqAssoc(Contribution(a[0], ctx, kinds), TagsContributed(a[1..], ctx, kinds), TagsContributed(b, ctx, kinds));
    }
  }

  lemma TagsContributedCons(ms: seq<Mapping>, ctx: FileContext, kinds: MediaKinds)
    requires ms != []
    ensures TagsContributed(ms, ctx, kinds) == Contribution(ms[0], ctx, kinds) + TagsContributed(ms[1..], ctx, kinds)
  {
  }

  /** No contributed tag contains a space. */
  lemma {:induction false} TagsContributedNoSpace(ms: seq<Mapping>, ctx: FileContext, kinds: MediaKinds)
    ensures forall t :: t in TagsContributed(ms, ctx, kinds) ==> ' ' !in t
  {
    if ms != [] {
      TagsContributedNoSpace(ms[1..], ctx, kinds);
      var v := Evaluate(ms[0].action, ctx, kinds);
      var first := Contribution(ms[0], ctx, kinds);
      forall t | t in first ensures ' ' !in t {
        var i :| 0 <= i < |first| && first[i] == t;
        assert t == Underscored(if v.value.Str? then v.value.s else v.value.items[i]);
      }
    }
  }

  /** The note's tags are exactly the tags the Tags mappings contribute, in
      mapping order, and none of them contains a space. */
  lemma {:induction false} NoteTags(ms: seq<Mapping>, ctx: FileContext, kinds: MediaKinds)
    ensures AssembleNote(ms, ctx, kinds).tags == TagsContributed(ms, ctx, kinds)
    ensures forall t :: t in AssembleNote(ms, ctx, kinds).tags ==> ' ' !in t
  {
    if ms != [] {
      var init, m := ms[..|ms| - 1], ms[|ms| - 1];
      NoteTags(init, ctx, kinds);
      TagsContributedSnoc(ms, ctx, kinds);
      AssembleNoteTagsStep(ms, ctx, kinds);
    }
    TagsContributedNoSpace(ms, ctx, kinds);
  }

  /** The last mapping's contribution comes last. */
  lemma TagsContributedSnoc(ms: seq<Mapping>, ctx: FileContext, kinds: MediaKinds)
    requires ms != []
    ensures TagsContributed(ms, ctx, kinds)
            == TagsContributed(ms[..|ms| - 1], ctx, kinds) + Contribution(ms[|ms| - 1], ctx, kinds)
  {
    var init, m := ms[..|ms| - 1], ms[|ms| - 1];
    TagsContributedAppend(init, [m], ctx, kinds);
    assert ms == init + [m];
    TagsContributedOne(m, ctx, kinds);
  }

  /** The last mapping adds its contribution after the earlier tags. */
  lemma AssembleNoteTagsStep(ms: seq<Mapping>, ctx: FileContext, kinds: MediaKinds)
    requires ms != []
    ensures AssembleNote(ms, ctx, kinds).tags
            == AssembleNote(ms[..|ms| - 1], ctx, kinds).tags + Contribution(ms[|ms| - 1], ctx, kinds)
  {
  }

  lemma TagsContributedOne(m: Mapping, ctx: FileContext, kinds: MediaKinds)
    ensures TagsContributed([m], ctx, kinds) == Contribution(m, ctx, kinds)
  {
    assert [m][1..] == [];
    assert TagsContributed([m], ctx, kinds) == Contribution(m, ctx, kinds) + TagsContributed([], ctx, kinds);
  }

  /** `tags.append(tag.replace(" ", "_"))` for each item, in order. */
  method AppendTags(tags: seq<string>, items: seq<string>) returns (r: seq<string>)
    ensures r == tags + TagsOf(List(items))
  {
    r := tags;
    var t := 0;
    while t < |items|
      invariant 0 <= t <= |items|
      invariant r == tags + TagsOf(List(items[..t]))
    {
      assert items[..t + 1][..t] == items[..t];
      r := r + [Underscored(items[t])];
      t := t + 1;
    }
    assert items[..t] == items;
  }

  /** The note a file's mappings produce, built the way the source does:
      field after field, tag after tag. */
  method FillNote(ms: seq<Mapping>, ctx: FileContext, kinds: MediaKinds) returns (note: Note)
    ensures note == AssembleNote(ms, ctx, kinds)
  {
    var fields: OMap<string, string> := Empty();
    var tags: seq<string> := [];
    var k := 0;
    while k < |ms|
      invariant 0 <= k <= |ms|
      invariant Note(fields, tags) == AssembleNote(ms[..k], ctx, kinds)
    {
      var m := ms[k];
      assert ms[..k + 1][..k] == ms[..k];
      var data := Evaluate(m.action, ctx, kinds);
      if data.None? {
        k := k + 1;
        continue;
      }
      if m.special && m.field == "Tags" {
        var items := match data.value case Str(s) => [s] case List(xs) => xs;
        assert TagsOf(List(items)) == TagsOf(data.value);
        tags := AppendTags(tags, items);
      } else {
        fields := Put(fields, m.field, Render(data.value));
      }
      k := k + 1;
    }
    assert ms[..k] == ms;
    note := Note(fields, tags);
  }
}
