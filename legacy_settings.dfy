/**
  The older settings module (mediaimport-2/settings.py): one JSON file
  holds every setting. Loading merges the file over three defaults,
  writing the result into the existing global dictionary key by key;
  saving writes the whole dictionary back. The file's contents are given
  as a value (`None` when there is no file); the file itself is not
  modelled.
 */
module LegacySettings {
  import opened Options
  import opened OrderedMaps
  import opened Settings
  import opened SettingsFacts

  /** `asdict(DefaultSettings())` (lines 47-56); `home` is
      `os.path.expanduser("~")`. */
  function LegacyDefaults(home: string): (r: Document)
    ensures Valid(r)
  {
    OMap([LoadFolder, SecondImageSuffix, FieldSettings],
         map[LoadFolder := JStr(home), SecondImageSuffix := JStr("_2"), FieldSettings := JObj(map[])])
  }

  /** The three default keys, and the suffix default this module gives the
      key the import reads. */
  lemma LegacyDefaultKeys(home: string)
    ensures LegacyDefaults(home).m.Keys == {LoadFolder, SecondImageSuffix, FieldSettings}
    ensures LegacyDefaults(home).m[SecondImageSuffix] == JStr("_2")
  {
  }

  /** `{**defaultSettings, **loadedSettings}` (line 82) */
  function LegacyMerged(home: string, loaded: Option<Document>): (r: Document)
    requires loaded.Some? ==> Valid(loaded.value)
    ensures Valid(r)
    ensures r.m == LegacyDefaults(home).m + FileContents(loaded).m
  {
    Merge(LegacyDefaults(home), FileContents(loaded))
  }

  /** `initializeSettings()` (lines 59-86): the merge written into the
      existing dictionary `g` by the insertion loop of lines 85-86. */
  method LegacyInitializeSettings(g: SettingsDict, home: string, loaded: Option<Document>)
    requires g.Inv() && (loaded.Some? ==> Valid(loaded.value))
    modifies g
    ensures g.Inv()
    ensures g.settings == Merge(old(g.settings), LegacyMerged(home, loaded))
  {
    var merged := LegacyMerged(home, loaded);
    g.InsertAll(merged);
  }

  /** `saveSettings()` (lines 89-98): the whole dictionary is written. */
  function LegacySave(s: Document): (r: Document)
    requires Valid(s)
    ensures Valid(r) && r.m == s.m
  {
    s
  }

  /** After loading, every default key is present; a loaded value wins
      over the default, a default fills in a key the file lacks, keys the
      file adds beyond the defaults are kept, and settings present before
      that neither names keep their value. Since the `fieldSettings`
      default is `{}`, a loaded `fieldSettings` is kept as it is, with no
      merging of its note types. */
  lemma LegacyPrecedence(home: string, current: Document, loaded: Option<Document>, k: Key)
    requires Valid(current) && (loaded.Some? ==> Valid(loaded.value))
    ensures k in LegacyDefaults(home).m ==> k in Merge(current, LegacyMerged(home, loaded)).m
    ensures k in FileContents(loaded).m
            ==> Merge(current, LegacyMerged(home, loaded)).m[k] == FileContents(loaded).m[k]
    ensures k !in FileContents(loaded).m && k in LegacyDefaults(home).m
            ==> Merge(current, LegacyMerged(home, loaded)).m[k] == LegacyDefaults(home).m[k]
    ensures k !in FileContents(loaded).m && k !in LegacyDefaults(home).m && k in current.m
            ==> Merge(current, LegacyMerged(home, loaded)).m[k] == current.m[k]
    ensures k in Merge(current, LegacyMerged(home, loaded)).m
            <==> k in current.m || k in LegacyDefaults(home).m || k in FileContents(loaded).m
  {
    var merged := LegacyMerged(home, loaded);
    var r := Merge(current, merged);
    assert r.m == current.m + (LegacyDefaults(home).m + FileContents(loaded).m);
  }

  /** Loading twice from the same file gives the same dictionary as
      loading once. */
  lemma LegacyIdempotent(home: string, current: Document, loaded: Option<Document>)
    requires Valid(current) && (loaded.Some? ==> Valid(loaded.value))
    ensures Merge(Merge(current, LegacyMerged(home, loaded)), LegacyMerged(home, loaded))
            == Merge(current, LegacyMerged(home, loaded))
  {
    MergeTwice(current, LegacyMerged(home, loaded));
  }

  /** Loading what was saved, into an empty dictionary, gives back every
      saved setting, with a default only for a key the settings lacked; a
      dictionary holding the three default keys comes back as it was (its
      key order aside). */
  lemma LegacyRoundTrip(home: string, s: Document)
    requires Valid(s)
    ensures Merge(Empty(), LegacyMerged(home, Some(LegacySave(s)))).m == LegacyDefaults(home).m + s.m
    ensures LegacyDefaults(home).m.Keys <= s.m.Keys
            ==> Merge(Empty(), LegacyMerged(home, Some(LegacySave(s)))).m == s.m
  {
    ReloadWhole(s, LegacyDefaults(home));
  }

  /** With the older module's settings, the import's lookup of
      `secondImageSuffix` finds the file's string under that key, or the
      default `_2` when the file has no such key. */
  lemma LegacySuffix(home: string, current: Document, loaded: Option<Document>)
    requires Valid(current) && (loaded.Some? ==> Valid(loaded.value))
    ensures SecondImageSuffix in FileContents(loaded).m
            ==> SuffixSettingAsWritten(Merge(current, LegacyMerged(home, loaded)))
                == StringSetting(FileContents(loaded), SecondImageSuffix)
    ensures SecondImageSuffix !in FileContents(loaded).m
            ==> SuffixSettingAsWritten(Merge(current, LegacyMerged(home, loaded))) == Some("_2")
  {
    LegacyPrecedence(home, current, loaded, SecondImageSuffix);
    LegacyDefaultKeys(home);
    LookupAfter(current, LegacyMerged(home, loaded), SecondImageSuffix);
  }
}
