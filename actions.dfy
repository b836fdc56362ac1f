/**
  The field-mapping vocabulary (mediaimport-2/__init__.py:35-46): each
  action is identified by the text shown in the dropdown menu, and a
  mapping names its action by that text. Also the two pure pieces of the
  import dialog that decide which actions a field offers and which stored
  setting a field starts with (mediaimport-2/__init__.py:274-276, 323-333,
  380-384).
 */
module Actions {
  import opened Options
  import opened OrderedMaps

  datatype Action =
    | Nothing
    | Media
    | Media2
    | FileName
    | FileNameFull
    | Extension
    | ExtensionCaseSensitive
    | Sequence
    | FolderTagsIndividual
    | FolderTagsHierarchical

  /** The enum's string value, which is also the dropdown text. */
  function Keyword(a: Action): string {
    match a
    case Nothing => ""
    case Media => "Media"
    case Media2 => "Media_2"
    case FileName => "File Name"
    case FileNameFull => "File Name (full)"
    case Extension => "Extension"
    case ExtensionCaseSensitive => "Extension (case-sensitive)"
    case Sequence => "Sequence"
    case FolderTagsIndividual => "Subfolder tags (individual)"
    case FolderTagsHierarchical => "Subfolder tag (hierarchical)"
  }

  /** The action a mapping's text stands for: the `action == Actions.x`
      comparisons of the evaluation chain; any other text matches none. */
  function Parse(s: string): (r: Option<Action>)
    ensures r.Some? ==> Keyword(r.value) == s
  {
    if s == "" then Some(Nothing)
    else if s == "Media" then Some(Media)
    else if s == "Media_2" then Some(Media2)
    else if s == "File Name" then Some(FileName)
    else if s == "File Name (full)" then Some(FileNameFull)
    else if s == "Extension" then Some(Extension)
    else if s == "Extension (case-sensitive)" then Some(ExtensionCaseSensitive)
    else if s == "Sequence" then Some(Sequence)
    else if s == "Subfolder tags (individual)" then Some(FolderTagsIndividual)
    else if s == "Subfolder tag (hierarchical)" then Some(FolderTagsHierarchical)
    else None
  }

  /** Every action's text is recognised as that action, so distinct
      actions have distinct texts. */
  lemma ParseKeyword(a: Action)
    ensures Parse(Keyword(a)) == Some(a)
  {
  }

  lemma KeywordInjective(a: Action, b: Action)
    requires Keyword(a) == Keyword(b)
    ensures a == b
  {
    ParseKeyword(a);
    ParseKeyword(b);
  }

  /** The actions in declaration order, which is the order `for action in
      Actions` visits them. */
  const AllActions: seq<Action> := [Nothing, Media, Media2, FileName, FileNameFull, Extension,
                                    ExtensionCaseSensitive, Sequence, FolderTagsIndividual,
                                    FolderTagsHierarchical]

  lemma AllActionsComplete(a: Action)
    ensures a in AllActions
  {
  }

  // ---------------------------------------------------------------------
  // The dropdown of one field row (lines 380-384)

  /** The texts added to the dropdown of the row named `name`, in order:
      every action, except that the Tags row does not offer `Media`. */
  method DropdownItems(name: string) returns (items: seq<string>)
    ensures name != "Tags" ==> |items| == |AllActions|
                               && forall j :: 0 <= j < |AllActions| ==> items[j] == Keyword(AllActions[j])
    ensures name == "Tags" ==> |items| == |AllActions| - 1
                               && items[0] == Keyword(AllActions[0])
                               && forall j :: 2 <= j < |AllActions| ==> items[j - 1] == Keyword(AllActions[j])
  {
    items := [];
    var k := 0;
    while k < |AllActions|
      invariant 0 <= k <= |AllActions|
      invariant name != "Tags" ==> |items| == k
                                   && forall j :: 0 <= j < k ==> items[j] == Keyword(AllActions[j])
      invariant name == "Tags" ==> |items| == (if k <= 1 then k else k - 1)
                                   && (k >= 1 ==> items[0] == Keyword(AllActions[0]))
                                   && forall j :: 2 <= j < k ==> items[j - 1] == Keyword(AllActions[j])
    {
      var action := AllActions[k];
      if name == "Tags" && action == Media {
        k := k + 1;
        continue;
      }
      items := items + [Keyword(action)];
      k := k + 1;
    }
  }

  /** The Tags row offers the secondary media action but not the primary
      one; every other row offers both. */
  lemma TagsDropdownKeepsMedia2(items: seq<string>, name: string)
    requires name == "Tags" ==> |items| == |AllActions| - 1
                                && items[0] == Keyword(AllActions[0])
                                && forall j :: 2 <= j < |AllActions| ==> items[j - 1] == Keyword(AllActions[j])
    requires name != "Tags" ==> |items| == |AllActions|
                                && forall j :: 0 <= j < |AllActions| ==> items[j] == Keyword(AllActions[j])
    ensures "Media_2" in items
    ensures "Media" in items <==> name != "Tags"
  {
    if name == "Tags" {
      assert items[1] == Keyword(AllActions[2]);
      forall j | 0 <= j < |items| ensures items[j] != "Media" {
        if j >= 1 {
          assert items[j] == Keyword(AllActions[j + 1]);
        }
      }
    } else {
      assert items[1] == Keyword(Media);
      assert items[2] == Keyword(Media2);
    }
  }

  // ---------------------------------------------------------------------
  // The initial field settings of the dialog (lines 274-276, 323-333)

  /** A field name to action text, per note type. */
  type FieldSettings = OMap<string, string>

  /** The settings used when nothing is stored for a note type. */
  function DialogDefaults(): (r: FieldSettings)
    ensures Valid(r)
  {
    var d0: FieldSettings := Empty();
    var d1 := Put(d0, "Front", Keyword(Media));
    var d2 := Put(d1, "Image", Keyword(Media));
    var d3 := Put(d2, "Back", Keyword(FileName));
    var d4 := Put(d3, "Back Extra", Keyword(FileName));
    Put(d4, "Text", Keyword(FileName))
  }

  /** The settings kept for one note type, or none. */
  function SettingsFor(perType: map<string, FieldSettings>, noteType: string): (r: FieldSettings)
    requires forall t :: t in perType ==> Valid(perType[t])
    ensures Valid(r)
    ensures noteType in perType ==> r == perType[noteType]
    ensures noteType !in perType ==> r.m == map[]
  {
    if noteType in perType then perType[noteType] else Empty()
  }

  /** `{**defaults, **stored, **session}` for the note type. */
  function InitialFieldSettings(defaults: FieldSettings, stored: map<string, FieldSettings>,
                                session: map<string, FieldSettings>, noteType: string): (r: FieldSettings)
    requires Valid(defaults)
    requires forall t :: t in stored ==> Valid(stored[t])
    requires forall t :: t in session ==> Valid(session[t])
    ensures Valid(r)
  {
    Merge(Merge(defaults, SettingsFor(stored, noteType)), SettingsFor(session, noteType))
  }

  /** A field's initial setting is the one the user picked earlier in this
      session, else the stored one, else the default; the defaults' fields
      come first, in their order. */
  lemma InitialFieldSettingsPrecedence(defaults: FieldSettings, stored: map<string, FieldSettings>,
                                       session: map<string, FieldSettings>, noteType: string,
                                       field: string, r: FieldSettings)
    requires Valid(defaults)
    requires forall t :: t in stored ==> Valid(stored[t])
    requires forall t :: t in session ==> Valid(session[t])
    requires r == InitialFieldSettings(defaults, stored, session, noteType)
    ensures r.keys[..|defaults.keys|] == defaults.keys
    ensures field in r.m <==> field in defaults.m || field in SettingsFor(stored, noteType).m
                              || field in SettingsFor(session, noteType).m
    ensures field in SettingsFor(session, noteType).m
            ==> r.m[field] == SettingsFor(session, noteType).m[field]
    ensures field !in SettingsFor(session, noteType).m && field in SettingsFor(stored, noteType).m
            ==> r.m[field] == SettingsFor(stored, noteType).m[field]
    ensures field !in SettingsFor(session, noteType).m && field !in SettingsFor(stored, noteType).m
            && field in defaults.m
            ==> r.m[field] == defaults.m[field]
  {
    MergeThreeOrder(defaults, SettingsFor(stored, noteType), SettingsFor(session, noteType));
    MergeThreeValue(defaults, SettingsFor(stored, noteType), SettingsFor(session, noteType), field);
  }
}
