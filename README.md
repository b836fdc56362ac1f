# Media import for Anki, modelled in Dafny

This project models the core of the Anki add-on *mediaimport-2*. The add-on
walks a folder and, for each media file it finds (audio or image), creates one
note. The fields of each note are filled according to a user-chosen field
mapping. The model covers:

- **Actions.** The mapping vocabulary: the ten actions a field can be mapped
  to, identified by their dropdown text.
- **Classification.** When a file counts as media: its extension without the
  dot, lower-cased, belongs to the host's audio or image lists.
- **Pairing.** The pairing index. When some field uses the secondary media
  action, every primary file gets a partner. A primary's partner is the file
  whose base name is the primary's base name plus a suffix (`_2` by default).
  Chains such as `image`, `image_2`, `image_2_2` pair up alternately. A missing
  partner aborts the import with a lookup error.
- **Evaluation.** What each action writes for one file: media markup, file
  name, extension, sequence number or folder tags.
- **Assembly.** How a note is put together: field values (the last mapping
  to a field wins) and tags (spaces become underscores).
- **The walk.** Folders are visited in pre-order, or only the import folder
  when subfolders are excluded. The import stops at the first note the
  collection refuses.
- **The dialog.** The per-field dropdown contents, and the initial field
  settings, merged from the defaults, the stored settings and the session.
- **Settings.** Both settings modules. The current one merges the transient
  defaults, the user defaults, the transient file and the add-on config,
  later layers winning. It saves by splitting into the user-visible part and
  everything else. The older one merges its defaults with a single settings
  file and saves the whole dictionary.

Python dictionaries are modelled as insertion-ordered maps (`OrderedMaps`).
The settings dictionary and the host collection are classes whose methods
update them in place. The loops of the original (the pairing passes, the
per-file loop, the folder loop, the settings insertion loop, the dropdown
loop) are methods. Each method is proved against a specification function,
and the promised properties are proved about those functions as lemmas.

The host is a parameter, not a model: the media store's name for an added
file and whether `addNote` accepts a note. The folder tree is a value
(`Walk.Folder`).

The tooltip for "Extension (case-sensitive)" says `image.JPG` gives `JPG`.
The code takes the extension of the name with its extension already removed,
so for `image.JPG` it gives the empty string. `Fields.Perform` follows the
code, since it models what the import writes;
`Fields.CaseSensitiveExtensionOfImageJpg` states the result for that very
file. `Fields.IntendedCaseSensitiveExtension` is the value the tooltip
describes (see "## Findings").

## Model

| member | source | states |
|---|---|---|
| Actions.Parse | mediaimport-2/__init__.py:36-46 | a text that names an action is that action's dropdown text |
| Actions.Keyword | mediaimport-2/__init__.py:36-46 | the dropdown text of each action; ParseKeyword reads every text back as its action, KeywordInjective keeps distinct actions' texts distinct |
| Actions.ParseKeyword | mediaimport-2/__init__.py:36-46 | every action's text parses back to the action |
| Actions.KeywordInjective | mediaimport-2/__init__.py:36-46 | distinct actions have distinct texts |
| Actions.AllActionsComplete | mediaimport-2/__init__.py:36-46 | the enumeration order lists every action |
| Actions.DropdownItems | mediaimport-2/__init__.py:380-384 | every action's text in enum order; for the Tags row, all but Media, the rest keeping their order |
| Actions.TagsDropdownKeepsMedia2 | mediaimport-2/__init__.py:381-384 | Media is offered exactly for rows not named Tags; the secondary media action is always offered |
| Actions.DialogDefaults | mediaimport-2/__init__.py:274-276 | the defaults for a note type with nothing stored form a valid ordered map; InitialFieldSettingsPrecedence puts their fields first |
| Actions.SettingsFor | mediaimport-2/__init__.py:323-330 | a note type with an entry gets that entry unchanged; one with no entry contributes nothing |
| Actions.InitialFieldSettings | mediaimport-2/__init__.py:323-333 | the initial settings form a valid ordered map; InitialFieldSettingsPrecedence states which layer each field's action comes from |
| Actions.InitialFieldSettingsPrecedence | mediaimport-2/__init__.py:323-333 | a field's initial action comes from the session if set there, else from the stored settings, else from the defaults; the defaults' fields come first in their order |
| Text.Lower | mediaimport-2/__init__.py:116 | same length; each character lower-cased |
| Text.LowerIsLowerCase | mediaimport-2/__init__.py:116 | the result has no upper-case ASCII letter, and lower-casing twice changes nothing |
| Text.Splitext | mediaimport-2/__init__.py:115 | the two parts concatenate to the name; a non-empty extension starts at a dot that follows a non-dot; an empty extension means there is no such dot |
| Text.SplitJoin | mediaimport-2/__init__.py:205-214 | splitting a separator-joined path gives its parts back |
| Text.RemoveFirst | mediaimport-2/__init__.py:207-208 | one element fewer when `x` is present, unchanged otherwise; RemoveFirstIsFirst: what goes is the first occurrence |
| Text.FirstIndex | mediaimport-2/__init__.py:207-208 | a position holding `x` with no `x` before it |
| Text.RemoveFirstAt | mediaimport-2/__init__.py:207-208 | removing an occurrence with none before it keeps what precedes and what follows it, in order |
| Text.RemoveFirstIsFirst | mediaimport-2/__init__.py:207-208 | `list.remove` removes the first occurrence: some position holds `x`, none before it does, and the result is the list without that position |
| Text.ReplaceChar | mediaimport-2/__init__.py:222 | same length; exactly the given character is replaced |
| Text.NatToStringDecimal | mediaimport-2/__init__.py:203 | `str(i)` is all digits and reads back as `i` |
| Text.NatToStringInjective | mediaimport-2/__init__.py:203 | distinct numbers give distinct strings |
| Media.ExtensionSplit | mediaimport-2/__init__.py:115-116 | with an extension dot at `d`, the base name is the text before it and the extension is the lower-cased text after it |
| Media.BaseName | mediaimport-2/__init__.py:115 | the base name is a prefix of the file name; ExtensionSplit: the text before the extension dot |
| Media.Ext | mediaimport-2/__init__.py:115-116 | the extension has no upper-case ASCII letter, and lower-casing it again changes nothing |
| Media.IsMediaFile | mediaimport-2/__init__.py:115-119 | a file is media when its lower-cased extension is an audio or image one; NoExtensionSkipped: a name without an extension is not |
| Media.IsCandidateSecondary | mediaimport-2/__init__.py:125-128 | some character, then the suffix at the end; SuffixedIsCandidate: a non-empty name plus the suffix qualifies |
| Media.NoExtensionSkipped | mediaimport-2/__init__.py:165-167 | a name without an extension is not media |
| Media.BaseNameNonEmpty | mediaimport-2/__init__.py:115 | a non-empty file name has a non-empty base name |
| Media.SuffixedIsCandidate | mediaimport-2/__init__.py:125 | a non-empty name followed by the suffix is a candidate secondary |
| Fields.EvaluateKeyword | mediaimport-2/__init__.py:177-216 | a mapping's text selects its action's branch |
| Fields.Evaluate | mediaimport-2/__init__.py:177-216 | the value of one mapping's action text, or none when the mapping is skipped; EvaluateSkips says exactly when |
| Fields.EvaluateSkips | mediaimport-2/__init__.py:177-216 | a mapping is skipped exactly when its text names no action, names Nothing, or names a media action for a non-media file |
| Fields.Perform | mediaimport-2/__init__.py:177-216 | the value each action gives for a file; PerformSkips says when there is none and when it is a list |
| Fields.PerformSkips | mediaimport-2/__init__.py:177-216 | no value exactly for Nothing and for a media action on a non-media file; a list exactly for the individual folder tags |
| Fields.MediaMarkup | mediaimport-2/__init__.py:180-193 | markup exactly for an audio or image extension; it starts with `[` (a sound tag) exactly for an audio one |
| Fields.SkippedActions | mediaimport-2/__init__.py:178-216 | Nothing and unknown texts write nothing |
| Fields.MediaMarkupOfMediaFile | mediaimport-2/__init__.py:180-186 | a sound tag exactly for audio extensions, otherwise an image tag |
| Fields.SecondaryUsesPrimaryExtension | mediaimport-2/__init__.py:187-193 | the secondary media action is the media action on the secondary's name, chosen by the primary's extension |
| Fields.NameActions | mediaimport-2/__init__.py:194-199 | file name without extension, full file name, lower-cased extension |
| Fields.EvaluateNameParts | mediaimport-2/__init__.py:194-201 | the name actions in terms of the base name, the extension and the base name's own extension |
| Fields.CaseSensitiveExtensionOfImageJpg | mediaimport-2/__init__.py:200-201 | for `image.JPG` the case-sensitive extension is empty, the extension is `jpg`, the file name `image` |
| Fields.IntendedCaseSensitiveExtension | mediaimport-2/__init__.py:200-201 | the intended case-sensitive extension lower-cases to the extension action's value |
| Fields.IntendedCaseSensitiveAt | mediaimport-2/__init__.py:200-201 | with an extension dot at `d`, the intended value is the text after it, case kept |
| Fields.IntendedExtensionOfImageJpg | mediaimport-2/__init__.py:57 | the tooltip's example: `image.JPG` gives `JPG` |
| Fields.ImageJpgParts | mediaimport-2/__init__.py:200-201 | `image.JPG` splits into `image` and `jpg`; `image` has no extension |
| Fields.SequenceIsPosition | mediaimport-2/__init__.py:202-203 | the sequence value is all digits and reads back as the file's position |
| Fields.FolderTagsRoot | mediaimport-2/__init__.py:205-214 | in the import folder the tag list is empty and the hierarchical tag is empty |
| Fields.FolderTagsNested | mediaimport-2/__init__.py:205-208 | below the import folder the tags are the folder path's names |
| Fields.EvaluateFolderTags | mediaimport-2/__init__.py:204-214 | the two folder-tag actions give the tag list and its `::`-join |
| Fields.FolderTagActions | mediaimport-2/__init__.py:204-214 | with plain folder names, one tag per folder and the `::`-joined path |
| Fields.RelPath | mediaimport-2/__init__.py:205 | the visited folder relative to the import folder; FolderTagsRoot and FolderTagsNested give its split form |
| Fields.FolderTags | mediaimport-2/__init__.py:205-208 | FolderTagsRoot: no tags in the import folder; FolderTagsNested: the folder names below it |
| Fields.Underscored | mediaimport-2/__init__.py:222 | same length, no space |
| Fields.TagsOf | mediaimport-2/__init__.py:219-222 | a single value gives one tag, a list one tag per item, each underscored |
| Fields.ApplyMapping | mediaimport-2/__init__.py:218-226 | one mapping's effect keeps the written fields a valid ordered map; LastWriteWins and NoteTags state the effect of all mappings |
| Fields.AssembleNote | mediaimport-2/__init__.py:177-226 | the note after all mappings has a valid field map; LastWriteWins gives each field's value, NoteTags the tags |
| Fields.LastWriteWins | mediaimport-2/__init__.py:177-226 | a field is set exactly when some mapping writes it, and holds the value rendered by the last such mapping |
| Fields.NoteTags | mediaimport-2/__init__.py:218-222 | the note's tags are the mappings' tag contributions in mapping order, none with a space |
| Fields.TagsContributedAppend | mediaimport-2/__init__.py:177-222 | tag contributions of consecutive mapping lists concatenate |
| Fields.TagsContributedNoSpace | mediaimport-2/__init__.py:222 | no contributed tag contains a space |
| Fields.AppendTags | mediaimport-2/__init__.py:221-222 | the tags grow by the underscored items, in order |
| Fields.FillNote | mediaimport-2/__init__.py:177-226 | the note the mapping loop fills is the assembled note |
| LengthSort.InsertByLenSorted | mediaimport-2/__init__.py:147 | inserting into a length-sorted list keeps it sorted |
| LengthSort.InsertByLenPermutes | mediaimport-2/__init__.py:147 | inserting adds the element and loses nothing |
| LengthSort.InsertByLenStable | mediaimport-2/__init__.py:147 | an insert puts the element after the others of its length |
| LengthSort.SortByLen | mediaimport-2/__init__.py:147 | the result is sorted by length and a permutation of the input |
| LengthSort.SortByLenStable | mediaimport-2/__init__.py:147 | for every length, the names of that length keep their order |
| Pairing.IndexStepKeeps | mediaimport-2/__init__.py:113-128 | one indexing step keeps the index invariant: keys are exactly the listed names, trivial primaries do not end in the suffix, candidates do, every entry is a media file of the folder with that base name |
| Pairing.IndexStep | mediaimport-2/__init__.py:114-128 | a non-media file leaves the index as it is; a media file is recorded under its base name; IndexStepKeeps: the step keeps the invariant |
| Pairing.RecordsStep | mediaimport-2/__init__.py:121 | recording a media file under its base name keeps every entry a media file of the folder |
| Pairing.RecordsSkip | mediaimport-2/__init__.py:115-119 | skipping a non-media file keeps the record |
| Pairing.ListsStep | mediaimport-2/__init__.py:125-128 | a new base name listed by its suffix test keeps the listing invariant |
| Pairing.IndexFiles | mediaimport-2/__init__.py:113-128 | the index of a folder's files satisfies the invariant |
| Pairing.IndexFilesSnoc | mediaimport-2/__init__.py:113 | indexing one more file is one more step |
| Pairing.IndexListed | mediaimport-2/__init__.py:114-128 | the loop body computes one indexing step |
| Pairing.IndexListing | mediaimport-2/__init__.py:113-128 | the index pass builds the specified index |
| Pairing.EvenRanked | mediaimport-2/__init__.py:148-149 | keeps exactly the names of even rank |
| Pairing.Rank | mediaimport-2/__init__.py:137-155 | how many suffixes can be stripped while the name stays indexed; the stripped suffixes fit in the name |
| Pairing.EvenRankedAppend | mediaimport-2/__init__.py:148 | the filter distributes over concatenation |
| Pairing.Emission | mediaimport-2/__init__.py:131-149 | every base name emitted as a primary is an indexed name |
| Pairing.EmissionIndexed | mediaimport-2/__init__.py:131-155 | a name is emitted as a primary exactly when it is indexed and of even rank |
| Pairing.FirstMissing | mediaimport-2/__init__.py:134-152 | none exactly when every emitted name has its partner; otherwise an emitted name lacking one |
| Pairing.FirstMissingAt | mediaimport-2/__init__.py:134-152 | the first emitted name lacking a partner is the one reported |
| Pairing.FirstMissingAppend | mediaimport-2/__init__.py:131-155 | the first miss of two passes is the first pass's, if any |
| Pairing.PairsOf | mediaimport-2/__init__.py:136-154 | the pair dictionary is a valid ordered map |
| Pairing.PairsOfSnoc | mediaimport-2/__init__.py:136-154 | one more emitted name adds its file paired with its partner's file |
| Pairing.PairIndex | mediaimport-2/__init__.py:101-157 | a successful pairing gives a valid ordered map |
| Pairing.MatchedIsOddRank | mediaimport-2/__init__.py:137-155 | a name already marked as matched has odd rank |
| Pairing.OddRankIsMatched | mediaimport-2/__init__.py:147-155 | after the shorter names, a name of odd rank is already marked as matched |
| Pairing.MatchedIffOddRank | mediaimport-2/__init__.py:147-155 | in the sorted pass, a name is marked matched exactly when it has odd rank |
| Pairing.SecondPassStep | mediaimport-2/__init__.py:148-155 | one step of the chained pass emits the name exactly when it is not yet matched |
| Pairing.SecondPassMissing | mediaimport-2/__init__.py:152 | a missing partner in the chained pass is the first miss of the whole emission |
| Pairing.MatchTrivialPrimaries | mediaimport-2/__init__.py:131-137 | the trivial-primary loop fails at the first primary without a partner, or records every primary's pair and marks every partner matched |
| Pairing.MatchChainedSecondaries | mediaimport-2/__init__.py:147-155 | the sorted loop fails at the first miss of the whole emission, or extends the pairs by the even-ranked candidates' pairs |
| Pairing.BuildPairIndex | mediaimport-2/__init__.py:112-157 | the folder's pairing pass computes the specified pair index or lookup error |
| PairingFacts.FilesOf | mediaimport-2/__init__.py:132-150 | the files of the emitted names, in order |
| PairingFacts.Dedup | mediaimport-2/__init__.py:157 | the same elements without repeats |
| PairingFacts.PairsOfKeys | mediaimport-2/__init__.py:136-157 | the pair dictionary's keys are the emitted files in first-emission order |
| PairingFacts.PairsOfEntries | mediaimport-2/__init__.py:132-154 | every emitted file maps to its partner's file, and every key is an emitted name's file |
| PairingFacts.PairIndexUnfold | mediaimport-2/__init__.py:101-157 | the pairing succeeds exactly when every emitted name has a partner, and then holds the emitted pairs; otherwise it reports the first miss |
| PairingFacts.AllPresentIffEvenPartnered | mediaimport-2/__init__.py:131-155 | every emitted name has a partner exactly when every even-ranked name does |
| PairingFacts.PairIndexSucceeds | mediaimport-2/__init__.py:131-155 | pairing succeeds exactly when every even-ranked media base name has a partner |
| PairingFacts.PairIndexFailure | mediaimport-2/__init__.py:134-152 | a failure names an absent base name that is an even-ranked name plus the suffix |
| PairingFacts.TrivialPrimaryNeedsPartner | mediaimport-2/__init__.py:131-134 | a media file not ending in the suffix and without a partner makes the pairing fail |
| PairingFacts.PairIndexEntries | mediaimport-2/__init__.py:131-157 | the keys are exactly the files of even-ranked base names, each mapped to its partner's file |
| PairingFacts.PairIndexShape | mediaimport-2/__init__.py:113-157 | both files of every pair are media files of the folder, the secondary's base name being the primary's plus the suffix |
| PairingFacts.SecondariesDistinct | mediaimport-2/__init__.py:136-154 | no two primaries share a secondary |
| PairingFacts.PrimaryNotSecondary | mediaimport-2/__init__.py:137-155 | no file is both a primary and some primary's secondary |
| PairingFacts.PairIndexCovers | mediaimport-2/__init__.py:131-157 | every indexed file is a primary or the secondary of its parent's file |
| PairingFacts.RankOfSuffixed | mediaimport-2/__init__.py:140-155 | a name plus the suffix has one more rank than the name |
| PairingFacts.OddRankParent | mediaimport-2/__init__.py:140-155 | an odd-ranked name is a candidate whose parent is indexed, of even rank, and gives it back with the suffix |
| PairingFacts.EvenPairsDoNotChain | mediaimport-2/__init__.py:137-149 | a pair index of even-ranked names never uses a primary as a secondary |
| PairingFacts.EvenNotSuffixedEven | mediaimport-2/__init__.py:140-155 | an even-ranked name is never another even-ranked name plus the suffix |
| PairingFacts.NamesNonEmpty | mediaimport-2/__init__.py:115-121 | non-empty file names give non-empty base names |
| PairingFacts.EvenPairsCover | mediaimport-2/__init__.py:131-157 | with a complete even-ranked index, every name is a primary or its parent's secondary |
| PairingFacts.EvenRankedSorted | mediaimport-2/__init__.py:147-148 | filtering a length-sorted list keeps it sorted |
| PairingFacts.OfLengthEvenRanked | mediaimport-2/__init__.py:147-148 | filtering commutes with taking the names of one length |
| PairingFacts.SecondPartOrder | mediaimport-2/__init__.py:147-155 | chained primaries come in length order, equal lengths in indexing order |
| PairingFacts.EmissionOrder | mediaimport-2/__init__.py:131-157 | the pair index lists trivial primaries first, in indexing order, then chained ones by length |
| Walk.Visits | mediaimport-2/__init__.py:91-94 | the walk starts at the import folder; without subfolders it visits only that folder |
| Walk.SubVisitsBelow | mediaimport-2/__init__.py:91 | every subfolder visit has a path extending its parent's |
| Walk.SubVisitsPlain | mediaimport-2/__init__.py:205-206 | with plain folder names every visited path has plain names |
| Walk.ListJobs | mediaimport-2/__init__.py:159-167 | at most one job per listed name; ListJobsListed, ListJobsOrdered and ListJobsCovers: exactly the media files, at their positions, in order |
| Walk.ListJobsListed | mediaimport-2/__init__.py:159-174 | each job is a media file at its position in the list, with its secondary when pairing |
| Walk.ListJobsOrdered | mediaimport-2/__init__.py:159 | jobs follow the list order |
| Walk.ListJobsCovers | mediaimport-2/__init__.py:159-167 | every media file in the list has its job |
| Walk.ListJobsStep | mediaimport-2/__init__.py:159-167 | one more file adds its job exactly when it is media |
| Walk.ListMediaJobs | mediaimport-2/__init__.py:159-174 | the per-file loop's skip test yields the specified jobs |
| Walk.VisitJobs | mediaimport-2/__init__.py:96-167 | a folder gives a lookup error exactly when pairing is used and its pairing fails; without pairing its jobs are the listing's media files |
| Walk.FolderJobsOf | mediaimport-2/__init__.py:91-157 | one entry per visited folder |
| Walk.FolderJobsAt | mediaimport-2/__init__.py:91-157 | the entry of a visit is that folder's jobs or lookup error |
| Walk.PlanOf | mediaimport-2/__init__.py:91-157 | the jobs of the folders up to the first failed pairing; PlanStop, PlanStopFinal and PlanPrefix state the stop and the order |
| Walk.ImportPlan | mediaimport-2/__init__.py:91-157 | the plan of the whole walk, paired exactly when a mapping uses the secondary; DoMediaImport states its notes, files and outcome against it |
| Walk.PlanStop | mediaimport-2/__init__.py:91-157 | the plan runs to the end exactly when no folder's pairing fails; a stop names the first failing folder's key |
| Walk.PlanStopFinal | mediaimport-2/__init__.py:91-157 | after a stop, later folders add nothing |
| Walk.PlanPrefix | mediaimport-2/__init__.py:91 | the first folders' jobs come first in the plan |
| Walk.MediaOfAppend | mediaimport-2/__init__.py:170-174 | the added files of consecutive jobs concatenate |
| Walk.MediaOfCount | mediaimport-2/__init__.py:170-174 | each job adds one file, plus one more when it has a secondary |
| Walk.ExpectedOutcome | mediaimport-2/__init__.py:228-236 | never Cancelled; a refused note exactly when a planned job was refused; completed exactly when none was and no pairing failed |
| Walk.Collection.constructor | mediaimport-2/__init__.py:170 | a collection starts with nothing added by the import |
| Walk.Collection.AddFile | mediaimport-2/__init__.py:170-174 | records the file and returns the name the host gives it |
| Walk.Collection.AddNote | mediaimport-2/__init__.py:228 | stores the note exactly when the host accepts it |
| Walk.PairsUsed | mediaimport-2/__init__.py:80-83 | true exactly when some mapping uses the secondary media action |
| Walk.ImportFile | mediaimport-2/__init__.py:160-228 | adds the file and its secondary, then offers that job's note; stores it exactly when it is accepted |
| Walk.ImportJobs | mediaimport-2/__init__.py:159-234 | stores the notes before the first refused one; adds the files of every attempted job |
| Walk.ImportFolder | mediaimport-2/__init__.py:96-234 | a folder whose pairing fails adds nothing; otherwise its jobs run up to the first refused note |
| Walk.ImportVisit | mediaimport-2/__init__.py:91-234 | the folder effect of the v-th visit |
| Walk.ImportFolderAt | mediaimport-2/__init__.py:91-236 | one folder pass ends the import with the promised outcome, or advances the loop state by that folder's jobs |
| Walk.FolderLogs | mediaimport-2/__init__.py:228-236 | a folder's effect after the earlier folders gives the final promise or the next loop state |
| Walk.LookupLogs | mediaimport-2/__init__.py:134-152 | a failed pairing ends the import with a lookup error and the notes created so far |
| Walk.PlannedBefore | mediaimport-2/__init__.py:91 | a reached folder's jobs directly follow the earlier folders' jobs in the plan |
| Walk.StoppedLogs | mediaimport-2/__init__.py:228-236 | a refused note ends the whole import there |
| Walk.ExtendedLogs | mediaimport-2/__init__.py:233-236 | a folder whose notes were all accepted extends the run |
| Walk.CompletedLogs | mediaimport-2/__init__.py:91-236 | a walk through every folder completes with all planned notes |
| Walk.ImportVisits | mediaimport-2/__init__.py:91-236 | the folder loop creates the notes of the plan's jobs before the first refused one, adds those jobs' files, and reports why it ended |
| Walk.DoMediaImport | mediaimport-2/__init__.py:71-236 | a cancelled dialog changes nothing; otherwise the notes, added files and outcome are those of the walk's plan cut at the first refused note |
| Settings.ParseKey | mediaimport-2/src/settings.py:64-80 | a key read from a document names that key |
| Settings.ParseKeyName | mediaimport-2/src/settings.py:64-80 | the add-on's own key names are read back as those keys |
| Settings.TransientDefaults | mediaimport-2/src/settings.py:58-69 | the transient defaults form a valid dictionary |
| Settings.UserDefaults | mediaimport-2/src/settings.py:72-80 | the user defaults form a valid dictionary |
| Settings.DefaultKeys | mediaimport-2/src/settings.py:58-80 | no key is both transient and user-visible; `secondImageSuffix` is neither; the pairing suffix defaults to `_2` |
| Settings.FileContents | mediaimport-2/src/settings.py:100-103 | a missing settings file reads as an empty dictionary |
| OrderedMaps.Merge | mediaimport-2/src/settings.py:111 | `{**a, **b}`: keys of either, `b`'s values winning, `a`'s keys first and in their order |
| Settings.Merged | mediaimport-2/src/settings.py:111 | the four layers merge, later ones winning |
| Settings.SettingsDict.constructor | mediaimport-2/src/settings.py:55 | the global dictionary starts empty |
| Settings.SettingsDict.InsertAll | mediaimport-2/src/settings.py:114-115 | the key-by-key loop leaves the dictionary equal to `{**settings, **merged}`: every merged entry written over the old one, nothing removed, the keys already present in their places |
| Settings.InitializeSettings | mediaimport-2/src/settings.py:83-115 | the global dictionary becomes the old one with the four-layer merge written over it |
| Settings.FirstAbsent | mediaimport-2/src/settings.py:127 | none exactly when every key is present; otherwise a missing key |
| Settings.KeysOutside | mediaimport-2/src/settings.py:128 | exactly the keys outside the excluded set |
| Settings.Split | mediaimport-2/src/settings.py:126-128 | both saved parts are valid dictionaries |
| Settings.SaveSplit | mediaimport-2/src/settings.py:118-128 | both saved parts are valid dictionaries |
| Settings.StringSetting | mediaimport-2/__init__.py:97 | a value exactly when the key holds a string, and then that string |
| Settings.SuffixSettingAsWritten | mediaimport-2/__init__.py:97 | the lookup of `secondImageSuffix`: nothing when the key is absent, else its string; SuffixAsWrittenMissing: after loading it is absent |
| Settings.SuffixSetting | mediaimport-2/__init__.py:97 | the lookup of `secondMediaSuffix`: nothing when the key is absent, else its string; SuffixSettingAfterLoad: after loading it is found |
| SettingsFacts.DefaultsCovered | mediaimport-2/src/settings.py:111 | every default key is present after loading |
| SettingsFacts.MergedPrecedence | mediaimport-2/src/settings.py:111 | a key's value comes from the config, else the transient file, else the user defaults, else the transient defaults |
| SettingsFacts.MergeTwice | mediaimport-2/src/settings.py:114-115 | writing the same merge twice changes nothing, key order included |
| SettingsFacts.NestedNotMerged | mediaimport-2/src/settings.py:111 | the merge is shallow: the config's `fieldSettings` replaces the stored one entirely |
| SettingsFacts.SplitPartition | mediaimport-2/src/settings.py:126-128 | the split fails exactly when a shown key is missing; otherwise the user part holds the shown keys and the rest holds every other key |
| SettingsFacts.SplitSaved | mediaimport-2/src/settings.py:126-128 | the two parts partition the settings' keys and together give back every value |
| SettingsFacts.SplitUserKeys | mediaimport-2/src/settings.py:127 | the user part has exactly the shown keys |
| SettingsFacts.SplitTransientKeys | mediaimport-2/src/settings.py:128 | the transient part has exactly the other keys |
| SettingsFacts.SplitParts | mediaimport-2/src/settings.py:127-128 | the two parts are the restrictions of the settings to their key lists |
| SettingsFacts.SavePartition | mediaimport-2/src/settings.py:118-128 | saving fails exactly when a user default key is missing; otherwise the parts split the settings by the user default keys |
| SettingsFacts.SplitRoundTrip | mediaimport-2/src/settings.py:111-128 | loading the two saved parts over any defaults gives back every saved value |
| SettingsFacts.ReloadWhole | mediaimport-2/src/settings.py:111-115 | loading a whole dictionary over defaults it covers gives it back |
| SettingsFacts.SaveLoadRoundTrip | mediaimport-2/src/settings.py:83-136 | loading what was saved, into an empty dictionary, gives back every saved setting |
| SettingsFacts.SuffixAsWrittenMissing | mediaimport-2/__init__.py:97 | with no transient file and an empty config, the import's suffix lookup finds nothing |
| SettingsFacts.SuffixSettingAfterLoad | mediaimport-2/src/settings.py:78-111 | after loading, the intended suffix lookup finds the config's string, else the transient file's, else `_2` |
| SettingsFacts.LookupAfter | mediaimport-2/src/settings.py:114-115 | a merged key reads after the insertion loop as it does in the merge |
| LegacySettings.LegacyDefaults | mediaimport-2/settings.py:47-56 | the defaults form a valid dictionary |
| LegacySettings.LegacyDefaultKeys | mediaimport-2/settings.py:47-56 | the default keys are the load folder, `secondImageSuffix` and `fieldSettings`; the suffix defaults to `_2` |
| LegacySettings.LegacyMerged | mediaimport-2/settings.py:82 | the loaded settings override the defaults |
| LegacySettings.LegacyInitializeSettings | mediaimport-2/settings.py:59-86 | the global dictionary becomes the old one with the merge written over it |
| LegacySettings.LegacySave | mediaimport-2/settings.py:89-98 | the whole dictionary is written |
| LegacySettings.LegacyPrecedence | mediaimport-2/settings.py:82-86 | every default key is present after loading; a loaded value wins over the default, which wins over the old value |
| LegacySettings.LegacyIdempotent | mediaimport-2/settings.py:82-86 | loading twice from the same file changes nothing further |
| LegacySettings.LegacyRoundTrip | mediaimport-2/settings.py:59-98 | loading what was saved gives back every saved setting |
| LegacySettings.LegacySuffix | mediaimport-2/settings.py:52-86 | with these settings, the import's suffix lookup finds the loaded string, else `_2` |

## Left out

- The Qt user interface is not modelled: widgets, tooltips, the note type list and the signal callbacks. Only the dropdown contents and the initial field-settings merge are modelled.
- The host collection is a parameter: the name `media.add_file` gives a file, and whether `addNote` accepts a note. Notes are field and tag values; the note type and the deck id are not modelled.
- Progress reporting, the file count pre-walk, timing and the final tooltip are not modelled. They do not affect the notes.
- `os.walk` is abstracted as the pre-order visit list of a folder tree value. File system errors, symbolic links and unreadable folders are not modelled.
- Reading and writing the JSON files and the add-on config are not modelled; the documents are values. Not modelled: `getConfig` returning `None`, a file holding something other than an object, and the `__main__` branch.
- JSON values are modelled only as deep as the code looks into them. Arrays, floats and objects other than the two-level `fieldSettings` shape are opaque values.
- Walk.DoMediaImport: the `settings` dictionary's suffix lookup is not part of the walk; the suffix is a parameter. The secondImageSuffix row under Findings covers the lookup.
- Walk.DoMediaImport: requires a non-empty suffix and non-empty file names. An empty suffix makes every name a candidate; the model does not cover that case.
- Text.Lower: lower-cases ASCII letters only. Python's `str.lower` also lower-cases other scripts; the host's extension lists are ASCII.
- Media.IsCandidateSecondary: the regex search with `re.MULTILINE` is modelled as "at least one character, then the suffix, at the end". This assumes base names contain no line break.
- LengthSort.SortByLen: Python's stable sort is modelled by a stable insertion sort. Only its result is modelled: sorted by length, a permutation, and equal lengths in input order.
- SettingsFacts.SaveLoadRoundTrip: the round trip is stated on the key/value map. On reload the keys come back in merge order, not in saved order.
- Each note's field list is not checked against the note type. In the original, `note[field] = data` for a field the note type lacks raises `KeyError`; the model writes it like any other. The dialog only offers the note type's own fields and `Tags` (mediaimport-2/__init__.py:311-321), so the case does not arise from it.

## Findings

| source | as written | input that shows it | evidently intended | confidence | as-written member | corrected member |
|---|---|---|---|---|---|---|
| mediaimport-2/__init__.py:97 | the import reads the pairing suffix from `settings["secondImageSuffix"]`, but the current settings module defines `secondMediaSuffix` instead (mediaimport-2/src/settings.py:78), and no layer it loads supplies `secondImageSuffix` by default | no transient file and an empty add-on config: after loading, the lookup finds no such key, a `KeyError` in the original | look up `secondMediaSuffix`, which defaults to `_2` | not executed | SettingsFacts.SuffixAsWrittenMissing | SettingsFacts.SuffixSettingAfterLoad |
| mediaimport-2/__init__.py:201 | the case-sensitive extension action takes `os.path.splitext(mediaName)[1][1:]`, the extension of the base name, whose extension is already removed | the file `image.JPG`: the base name `image` has no extension, so the action writes the empty string | the file's own extension with its case kept, `JPG`, as the action's tooltip says (mediaimport-2/__init__.py:57) | not executed | Fields.CaseSensitiveExtensionOfImageJpg | Fields.IntendedExtensionOfImageJpg |
