/**
  What loading and saving the settings guarantee
  (mediaimport-2/src/settings.py:83-136): which layer each setting comes
  from, what the two saved documents hold, what a save followed by a load
  gives back, and which suffix the import then reads
  (mediaimport-2/__init__.py:97).
 */
module SettingsFacts {
  import opened Options
  import opened OrderedMaps
  import opened Settings

  /** Every default key is present after loading, whatever was read. */
  lemma DefaultsCovered(home: string, transient: Option<Document>, user: Document, k: Key)
    requires Loadable(transient, user)
    requires k in TransientDefaults(home).m || k in UserDefaults().m
    ensures k in Merged(home, transient, user).m
  {
  }

  /** A key's value comes from the add-on config if it has the key, else
      from the transient file, else from the user defaults, else from the
      transient defaults; and the merged keys are exactly those of the four
      layers. */
  lemma MergedPrecedence(home: string, transient: Option<Document>, user: Document, k: Key)
    requires Loadable(transient, user)
    ensures k in Merged(home, transient, user).m
            <==> k in TransientDefaults(home).m || k in UserDefaults().m
                 || k in FileContents(transient).m || k in user.m
    ensures k in user.m ==> Merged(home, transient, user).m[k] == user.m[k]
    ensures k !in user.m && k in FileContents(transient).m
            ==> Merged(home, transient, user).m[k] == FileContents(transient).m[k]
    ensures k !in user.m && k !in FileContents(transient).m && k in UserDefaults().m
            ==> Merged(home, transient, user).m[k] == UserDefaults().m[k]
    ensures k !in user.m && k !in FileContents(transient).m && k !in UserDefaults().m
            && k in TransientDefaults(home).m
            ==> Merged(home, transient, user).m[k] == TransientDefaults(home).m[k]
  {
    var r := Merged(home, transient, user);
    assert r.m == ((TransientDefaults(home).m + UserDefaults().m) + FileContents(transient).m) + user.m;
  }

  /** Writing the same merge a second time changes nothing, key order
      included. */
  lemma MergeTwice(current: Document, merged: Document)
    requires Valid(current) && Valid(merged)
    ensures Merge(Merge(current, merged), merged) == Merge(current, merged)
  {
    var once := Merge(current, merged);
    PutEachAgain(once, merged.m, merged.keys);
  }

  /** The merge is shallow: when the add-on config holds a
      `fieldSettings` object, it replaces the transient file's and the
      default one wholesale, so a note type only an earlier layer lists is
      not in the result. */
  lemma NestedNotMerged(home: string, transient: Option<Document>, user: Document, noteType: string)
    requires Loadable(transient, user)
    requires FieldSettings in user.m && user.m[FieldSettings].JObj?
    ensures Merged(home, transient, user).m[FieldSettings] == user.m[FieldSettings]
    ensures noteType !in user.m[FieldSettings].entries
            ==> noteType !in Merged(home, transient, user).m[FieldSettings].entries
  {
    MergedPrecedence(home, transient, user, FieldSettings);
  }

  /** Splitting fails exactly when a key of `shown` is missing; otherwise
      the config part holds exactly the keys of `shown`, the transient part
      holds every other key, and together they hold every setting with the
      settings' own values. */
  lemma SplitPartition(s: Document, shown: Document)
    requires Valid(s) && Valid(shown)
    ensures Split(s, shown).MissingKey? <==> exists k :: k in shown.m && k !in s.m
    ensures Split(s, shown).MissingKey? ==> Split(s, shown).key in shown.m && Split(s, shown).key !in s.m
    ensures Split(s, shown).Saved? ==>
      && Split(s, shown).user.m.Keys == shown.m.Keys
      && Split(s, shown).transient.m.Keys == s.m.Keys - shown.m.Keys
      && Split(s, shown).user.m.Keys !! Split(s, shown).transient.m.Keys
      && Split(s, shown).user.m.Keys + Split(s, shown).transient.m.Keys == s.m.Keys
      && Split(s, shown).transient.m + Split(s, shown).user.m == s.m
  {
    if Split(s, shown).Saved? {
      SplitSaved(s, shown, Split(s, shown).user, Split(s, shown).transient);
    }
  }

  lemma SplitSaved(s: Document, shown: Document, user: Document, transient: Document)
    requires Valid(s) && Valid(shown) && Split(s, shown) == Saved(user, transient)
    ensures user.m.Keys == shown.m.Keys
    ensures transient.m.Keys == s.m.Keys - shown.m.Keys
    ensures transient.m + user.m == s.m
  {
    SplitUserKeys(s, shown, user, transient);
    SplitTransientKeys(s, shown, user, transient);
    var rest := KeysOutside(s.keys, shown.m.Keys);
    SplitParts(s, shown, user, transient, rest);
    RestrictCover(s.m, rest, shown.keys);
  }

  lemma SplitUserKeys(s: Document, shown: Document, user: Document, transient: Document)
    requires Valid(s) && Valid(shown) && Split(s, shown) == Saved(user, transient)
    ensures user.m.Keys == shown.m.Keys
  {
    SplitParts(s, shown, user, transient, KeysOutside(s.keys, shown.m.Keys));
    RestrictKeys(s.m, shown.keys);
  }

  lemma SplitTransientKeys(s: Document, shown: Document, user: Document, transient: Document)
    requires Valid(s) && Valid(shown) && Split(s, shown) == Saved(user, transient)
    ensures transient.m.Keys == s.m.Keys - shown.m.Keys
  {
    var rest := KeysOutside(s.keys, shown.m.Keys);
    SplitParts(s, shown, user, transient, rest);
    RestrictKeys(s.m, rest);
  }

  /** The two parts are the restrictions of the settings to the keys of
      `shown` and to `rest`. */
  lemma SplitParts(s: Document, shown: Document, user: Document, transient: Document, rest: seq<Key>)
    requires Valid(s) && Valid(shown) && Split(s, shown) == Saved(user, transient)
    requires rest == KeysOutside(s.keys, shown.m.Keys)
    ensures forall k :: k in shown.keys ==> k in s.m
    ensures forall k :: k in rest ==> k in s.m
    ensures user.m == Restrict(s.m, shown.keys)
    ensures transient.m == Restrict(s.m, rest)
  {
    PutEachFromEmpty(s.m, shown.keys);
    PutEachFromEmpty(s.m, rest);
  }

  /** Saving fails exactly when a user default key is missing; otherwise
      the config holds exactly the user default keys, the transient file
      holds every other key, the two are disjoint, together they hold
      every setting, and each holds the settings' own values. */
  lemma SavePartition(s: Document)
    requires Valid(s)
    ensures SaveSplit(s).MissingKey? <==> exists k :: k in UserDefaults().m && k !in s.m
    ensures SaveSplit(s).MissingKey? ==> SaveSplit(s).key in UserDefaults().m && SaveSplit(s).key !in s.m
    ensures SaveSplit(s).Saved? ==>
      && SaveSplit(s).user.m.Keys == UserDefaults().m.Keys
      && SaveSplit(s).transient.m.Keys == s.m.Keys - UserDefaults().m.Keys
      && SaveSplit(s).user.m.Keys !! SaveSplit(s).transient.m.Keys
      && SaveSplit(s).user.m.Keys + SaveSplit(s).transient.m.Keys == s.m.Keys
      && SaveSplit(s).transient.m + SaveSplit(s).user.m == s.m
  {
    SplitPartition(s, UserDefaults());
  }

  /** Loading the two parts of a split over defaults `hidden` and `shown`
      gives the defaults overlaid with the settings, and gives back the
      settings themselves when they hold every default key. */
  lemma SplitRoundTrip(s: Document, hidden: Document, shown: Document, user: Document, transient: Document)
    requires Valid(s) && Valid(hidden) && Valid(shown) && Split(s, shown) == Saved(user, transient)
    ensures Merge(Empty(), Merge(Merge(Merge(hidden, shown), transient), user)).m
            == (hidden.m + shown.m) + s.m
    ensures hidden.m.Keys <= s.m.Keys
            ==> Merge(Empty(), Merge(Merge(Merge(hidden, shown), transient), user)).m == s.m
  {
    SplitPartition(s, shown);
    var defaults := Merge(hidden, shown);
    var x := Merge(Merge(defaults, transient), user);
    UnionEmpty(x.m);
    UnionAssoc(defaults.m, transient.m, user.m);
    if hidden.m.Keys <= s.m.Keys {
      UnionCovered(hidden.m, shown.m, s.m);
    }
  }

  /** Loading a whole saved dictionary over `defaults`, into an empty
      dictionary, gives the defaults overlaid with it, and gives it back
      when it holds every default key. */
  lemma ReloadWhole(s: Document, defaults: Document)
    requires Valid(s) && Valid(defaults)
    ensures Merge(Empty(), Merge(defaults, s)).m == defaults.m + s.m
    ensures defaults.m.Keys <= s.m.Keys ==> Merge(Empty(), Merge(defaults, s)).m == s.m
  {
    var merged := Merge(defaults, s);
    UnionEmpty(merged.m);
    if defaults.m.Keys <= s.m.Keys {
      UnionCoveredBy(defaults.m, s.m);
    }
  }

  lemma UnionCoveredBy<K, V>(a: map<K, V>, b: map<K, V>)
    requires a.Keys <= b.Keys
    ensures a + b == b
  {
  }

  lemma UnionCovered<K, V>(a: map<K, V>, b: map<K, V>, c: map<K, V>)
    requires a.Keys <= c.Keys && b.Keys <= c.Keys
    ensures (a + b) + c == c
  {
  }

  /** Loading what was saved, into an empty dictionary, gives back every
      saved setting; the defaults reappear only for keys the settings
      lacked, so a dictionary holding every default key comes back as it
      was (its key order aside). */
  lemma SaveLoadRoundTrip(home: string, s: Document, user: Document, transient: Document)
    requires Valid(s) && SaveSplit(s) == Saved(user, transient)
    ensures Merge(Empty(), Merged(home, Some(transient), user)).m
            == (TransientDefaults(home).m + UserDefaults().m) + s.m
    ensures TransientDefaults(home).m.Keys <= s.m.Keys
            ==> Merge(Empty(), Merged(home, Some(transient), user)).m == s.m
  {
    SplitRoundTrip(s, TransientDefaults(home), UserDefaults(), user, transient);
  }

  /** With no transient file and an empty add-on config, the lookup as
      written finds nothing, so the import stops with a `KeyError` before
      it reads a single folder. */
  lemma SuffixAsWrittenMissing(home: string)
    ensures SuffixSettingAsWritten(Merge(Empty(), Merged(home, None, Empty()))) == None
  {
    MergedPrecedence(home, None, Empty(), SecondImageSuffix);
    DefaultKeys(home);
  }

  /** After loading, the intended lookup finds the string the add-on
      config holds under its key, else the transient file's, else the
      default `_2`. */
  lemma SuffixSettingAfterLoad(home: string, current: Document, transient: Option<Document>, user: Document)
    requires Valid(current) && Loadable(transient, user)
    ensures SecondMediaSuffix in user.m
            ==> SuffixSetting(Merge(current, Merged(home, transient, user))) == StringSetting(user, SecondMediaSuffix)
    ensures SecondMediaSuffix !in user.m && SecondMediaSuffix in FileContents(transient).m
            ==> SuffixSetting(Merge(current, Merged(home, transient, user)))
                == StringSetting(FileContents(transient), SecondMediaSuffix)
    ensures SecondMediaSuffix !in user.m && SecondMediaSuffix !in FileContents(transient).m
            ==> SuffixSetting(Merge(current, Merged(home, transient, user))) == Some("_2")
  {
    var merged := Merged(home, transient, user);
    MergedPrecedence(home, transient, user, SecondMediaSuffix);
    DefaultKeys(home);
    LookupAfter(current, merged, SecondMediaSuffix);
  }

  /** A key the merge names reads, after the insertion loop, as it does in
      the merge. */
  lemma LookupAfter(current: Document, merged: Document, k: Key)
    requires Valid(current) && Valid(merged) && k in merged.m
    ensures StringSetting(Merge(current, merged), k) == StringSetting(merged, k)
  {
  }
}
