/**
  The add-on's settings store (mediaimport-2/src/settings.py): one global,
  insertion-ordered dictionary of top-level settings. It is filled by
  merging four layers (the transient defaults, the user defaults, the
  transient settings file and the add-on config, later layers winning),
  and saved by splitting it into the user-visible part, which goes to the
  add-on config, and everything else, which goes to the transient file.

  The two documents read are given as values (a missing transient file is
  `None`); reading and writing the files is not modelled.
 */
module Settings {
  import opened Options
  import opened OrderedMaps

  /** A JSON value as `json.load` returns it, to the depth the settings
      code and the import look into it: the scalars, the two-level object
      of strings that `fieldSettings` holds (note type to field name to
      configuration), and any other array or object as a value whose
      contents are never inspected. */
  datatype Json =
    | JNull
    | JBool(b: bool)
    | JNum(n: int)
    | JStr(s: string)
    | JObj(entries: map<string, map<string, string>>)
    | JOther

  /** A top-level key. The names the add-on itself uses are told apart;
      every other name is kept as it was read. */
  datatype Key =
    | LoadFolder
    | IncludeSubfolders
    | FieldSettings
    | SecondMediaSuffix
    | ShowExtensionActions
    | SecondImageSuffix
    | Other(name: string)

  /** The key's text in the JSON documents. */
  function KeyName(k: Key): string {
    match k
    case LoadFolder => "loadFolder"
    case IncludeSubfolders => "includeSubfolders"
    case FieldSettings => "fieldSettings"
    case SecondMediaSuffix => "secondMediaSuffix"
    case ShowExtensionActions => "showExtensionActions"
    case SecondImageSuffix => "secondImageSuffix"
    case Other(name) => name
  }

  /** The key a name read from a document stands for. */
  function ParseKey(s: string): (k: Key)
    ensures KeyName(k) == s
  {
    if s == "loadFolder" then LoadFolder
    else if s == "includeSubfolders" then IncludeSubfolders
    else if s == "fieldSettings" then FieldSettings
    else if s == "secondMediaSuffix" then SecondMediaSuffix
    else if s == "showExtensionActions" then ShowExtensionActions
    else if s == "secondImageSuffix" then SecondImageSuffix
    else Other(s)
  }

  /** Distinct named keys have distinct names, so telling them apart loses
      nothing. */
  lemma ParseKeyName(k: Key)
    requires !k.Other?
    ensures ParseKey(KeyName(k)) == k
  {
  }

  /** A top-level settings dictionary. */
  type Document = OMap<Key, Json>

  // ---------------------------------------------------------------------
  // The defaults (lines 57-80)

  /** `asdict(TransientSettings())`; `home` is `os.path.expanduser("~")`. */
  function TransientDefaults(home: string): (r: Document)
    ensures Valid(r)
  {
    OMap([LoadFolder, IncludeSubfolders, FieldSettings],
         map[LoadFolder := JStr(home), IncludeSubfolders := JBool(true), FieldSettings := JObj(map[])])
  }

  /** `asdict(DefaultSettings())`: the settings the user sees in the
      add-on config. */
  function UserDefaults(): (r: Document)
    ensures Valid(r)
  {
    OMap([SecondMediaSuffix, ShowExtensionActions],
         map[SecondMediaSuffix := JStr("_2"), ShowExtensionActions := JBool(false)])
  }

  /** No key is both a transient and a user setting, the key the import
      reads, `secondImageSuffix`, is neither, and the pairing suffix
      defaults to `_2`. */
  lemma DefaultKeys(home: string)
    ensures TransientDefaults(home).m.Keys !! UserDefaults().m.Keys
    ensures SecondImageSuffix !in TransientDefaults(home).m && SecondImageSuffix !in UserDefaults().m
    ensures SecondMediaSuffix in UserDefaults().m && UserDefaults().m[SecondMediaSuffix] == JStr("_2")
  {
  }

  // ---------------------------------------------------------------------
  // Loading (lines 83-115)

  /** A settings file's contents, `{}` when there is no file. */
  function FileContents(file: Option<Document>): (r: Document)
    requires file.Some? ==> Valid(file.value)
    ensures Valid(r)
    ensures file.None? ==> r.m == map[]
  {
    if file.Some? then file.value else Empty()
  }

  ghost predicate Loadable(transient: Option<Document>, user: Document) {
    (transient.Some? ==> Valid(transient.value)) && Valid(user)
  }

  /** `{**defaultTransientSettings, **defaultUserSettings, **transientSettings, **userSettings}` */
  function Merged(home: string, transient: Option<Document>, user: Document): (r: Document)
    requires Loadable(transient, user)
    ensures Valid(r)
    ensures r.m == ((TransientDefaults(home).m + UserDefaults().m) + FileContents(transient).m) + user.m
  {
    Merge(Merge(Merge(TransientDefaults(home), UserDefaults()), FileContents(transient)), user)
  }

  /** A module's global `settings` dictionary. Both settings modules
      update theirs in place, key by key, so that every module that
      imported the dictionary sees the new values. */
  class SettingsDict {
    var settings: Document

    ghost predicate Inv()
      reads this
    {
      Valid(settings)
    }

    constructor ()
      ensures Inv() && settings.keys == []
    {
      settings := Empty();
    }

    /** The insertion loop of `initializeSettings` (lines 114-115):
        `settings[key] = merged[key]` for every key of `merged`, in order.
        The dictionary ends up as `{**settings, **merged}`: every merged
        entry written over the old one, nothing removed, and the keys
        already present in their places. */
    method InsertAll(merged: Document)
      requires Inv() && Valid(merged)
      modifies this
      ensures Inv()
      ensures settings == Merge(old(settings), merged)
    {
      ghost var start := settings;
      var i := 0;
      while i < |merged.keys|
        invariant 0 <= i <= |merged.keys|
        invariant Valid(settings)
        invariant settings == PutEach(start, merged.m, merged.keys[..i])
      {
        var key := merged.keys[i];
        PutEachSnoc(start, merged.m, merged.keys, i);
        settings := Put(settings, key, merged.m[key]);
        i := i + 1;
      }
      assert merged.keys[..i] == merged.keys;
    }
  }

  /** `initializeSettings()`: merges the four layers and writes the result
      into the existing dictionary `g`. */
  method InitializeSettings(g: SettingsDict, home: string, transient: Option<Document>, user: Document)
    requires g.Inv() && Loadable(transient, user)
    modifies g
    ensures g.Inv()
    ensures g.settings == Merge(old(g.settings), Merged(home, transient, user))
  {
    var merged := Merged(home, transient, user);
    g.InsertAll(merged);
  }

  // ---------------------------------------------------------------------
  // Saving (lines 118-136)

  /** What `saveSettings` writes: the add-on config and the transient
      file, or the `KeyError` the first comprehension raises when a user
      default key is missing from the settings. */
  datatype SaveResult = Saved(user: Document, transient: Document) | MissingKey(key: Key)

  /** The first of `ks` that is not a key of `m`. */
  function FirstAbsent(ks: seq<Key>, m: map<Key, Json>): (r: Option<Key>)
    ensures r.None? <==> forall k :: k in ks ==> k in m
    ensures r.Some? ==> r.value in ks && r.value !in m
  {
    if ks == [] then None
    else if ks[0] !in m then Some(ks[0])
    else FirstAbsent(ks[1..], m)
  }

  /** The keys of `ks` outside `ex`, in order. */
  function KeysOutside(ks: seq<Key>, ex: set<Key>): (r: seq<Key>)
    ensures forall k :: k in r <==> k in ks && k !in ex
  {
    if ks == [] then []
    else (if ks[0] in ex then [] else [ks[0]]) + KeysOutside(ks[1..], ex)
  }

  /** The two comprehensions of `saveSettings` (lines 127-128) for the
      user-visible defaults `shown`: the settings' entries for the keys of
      `shown`, in its order, and the entries of every other key, in the
      settings' order. */
  function Split(s: Document, shown: Document): (r: SaveResult)
    requires Valid(s) && Valid(shown)
    ensures r.Saved? ==> Valid(r.user) && Valid(r.transient)
  {
    match FirstAbsent(shown.keys, s.m)
    case Some(k) => MissingKey(k)
    case None =>
      var rest := KeysOutside(s.keys, shown.m.Keys);
      Saved(PutEach(Empty(), s.m, shown.keys), PutEach(Empty(), s.m, rest))
  }

  /** `saveSettings()`: the split by `asdict(DefaultSettings())`. */
  function SaveSplit(s: Document): (r: SaveResult)
    requires Valid(s)
    ensures r.Saved? ==> Valid(r.user) && Valid(r.transient)
  {
    Split(s, UserDefaults())
  }

  // ---------------------------------------------------------------------
  // The pairing suffix read by the import (mediaimport-2/__init__.py:97)

  /** A string setting, or nothing when the key is missing or holds
      another kind of value. */
  function StringSetting(s: Document, key: Key): (r: Option<string>)
    ensures r.Some? <==> key in s.m && s.m[key].JStr?
    ensures r.Some? ==> s.m[key] == JStr(r.value)
  {
    if key in s.m && s.m[key].JStr? then Some(s.m[key].s) else None
  }

  /** The lookup as written: the import asks for `secondImageSuffix`, a
      key only the older settings module defines. */
  function SuffixSettingAsWritten(s: Document): (r: Option<string>)
    ensures SecondImageSuffix !in s.m ==> r.None?
    ensures r.Some? ==> s.m[SecondImageSuffix] == JStr(r.value)
  {
    StringSetting(s, SecondImageSuffix)
  }

  /** The evidently intended lookup, of `secondMediaSuffix`. */
  function SuffixSetting(s: Document): (r: Option<string>)
    ensures SecondMediaSuffix !in s.m ==> r.None?
    ensures r.Some? ==> s.m[SecondMediaSuffix] == JStr(r.value)
  {
    StringSetting(s, SecondMediaSuffix)
  }

}
