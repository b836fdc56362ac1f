/**
  The import walk of `doMediaImport` (mediaimport-2/__init__.py:80-94,
  159-236): the folders are visited in pre-order (only the import folder
  when subfolders are excluded); in each folder the pairing index is built
  if some mapping uses the secondary media action, and every media file (or
  every pair's primary file) is added to the collection and turned into a
  note. The walk stops at the first note the collection refuses, and a
  missing secondary aborts it with a lookup error.

  The specification is a PLAN: the jobs (one per note to create) in walk
  order, cut at the first folder whose pairing fails. The walk is proved to
  create the notes of the plan's jobs up to the first refused one.
 */
module Walk {
  import opened Options
  import opened Text
  import opened OrderedMaps
  import opened Media
  import opened Pairing
  import opened Fields
  import opened Sequences

  // ---------------------------------------------------------------------
  // The folder tree and its traversal (lines 91-94)

  /** A folder: its name, its file names and its subfolders, in listing order. */
  datatype Folder = Folder(name: string, files: seq<string>, subfolders: seq<Folder>)

  /** One step of the walk: the names of the subfolders leading from the
      import folder to the visited folder, and that folder's files. */
  datatype Visit = Visit(folder: seq<string>, files: seq<string>)

  /** Pre-order visits of the folders `fs`, which sit at `path`. */
  function SubVisits(fs: seq<Folder>, path: seq<string>): seq<Visit> {
    if fs == [] then []
    else
      var p := path + [fs[0].name];
      [Visit(p, fs[0].files)] + SubVisits(fs[0].subfolders, p) + SubVisits(fs[1..], path)
  }

  /** The walk from the import folder; without `recursive` the subfolder
      list is emptied after the first step, so only the import folder is
      visited. */
  function Visits(root: Folder, recursive: bool): (r: seq<Visit>)
    ensures |r| >= 1 && r[0] == Visit([], root.files)
    ensures !recursive ==> r == [Visit([], root.files)]
  {
    [Visit([], root.files)] + (if recursive then SubVisits(root.subfolders, []) else [])
  }

  /** Every visit below `path` has a folder path that extends `path` by at
      least one name. */
  lemma {:induction false} SubVisitsBelow(fs: seq<Folder>, path: seq<string>)
    ensures forall v :: v in SubVisits(fs, path) ==>
      |v.folder| > |path| && v.folder[..|path|] == path
  {
    if fs != [] {
      var p := path + [fs[0].name];
      SubVisitsBelow(fs[0].subfolders, p);
      SubVisitsBelow(fs[1..], path);
      forall v | v in SubVisits(fs[0].subfolders, p)
        ensures |v.folder| > |path| && v.folder[..|path|] == path
      {
        assert v.folder[..|p|][..|path|] == v.folder[..|path|];
      }
    }
  }

  /** All folder names in the tree are plain file-system names. */
  predicate PlainTree(fs: seq<Folder>) {
    forall i :: 0 <= i < |fs| ==> PlainFolderName(fs[i].name) && PlainTree(fs[i].subfolders)
  }

  /** In a tree of plain folder names, every visited path is made of plain
      names, so the folder-tag actions give exactly the path. */
  lemma {:induction false} SubVisitsPlain(fs: seq<Folder>, path: seq<string>)
    requires PlainTree(fs)
    requires forall i :: 0 <= i < |path| ==> PlainFolderName(path[i])
    ensures forall v :: v in SubVisits(fs, path) ==>
      forall i :: 0 <= i < |v.folder| ==> PlainFolderName(v.folder[i])
  {
    if fs != [] {
      var p := path + [fs[0].name];
      assert PlainFolderName(fs[0].name) && PlainTree(fs[0].subfolders);
      assert PlainTree(fs[1..]) by {
        forall i | 0 <= i < |fs[1..]| ensures PlainFolderName(fs[1..][i].name) && PlainTree(fs[1..][i].subfolders) {
          assert fs[1..][i] == fs[i + 1];
        }
      }
      SubVisitsPlain(fs[0].subfolders, p);
      SubVisitsPlain(fs[1..], path);
    }
  }

  // ---------------------------------------------------------------------
  // The plan: one job per note


  /** A note to create: the file's position in the list the folder's loop
      enumerates, the folder, the file and, with pairing, its secondary. */
  datatype Job = Job(index: nat, folder: seq<string>, fileName: string, secondary: Option<string>)

  /** The secondary paired with `f`, when a pair index is in use. */
  function SecondaryOf(pairs: Option<map<string, string>>, f: string): Option<string> {
    if pairs.Some? && f in pairs.value then Some(pairs.value[f]) else None
  }

  /** The jobs of `enumerate(names)`: one per media file, at its position
      in the list; other names are skipped but still take up a position. */
  function ListJobs(names: seq<string>, folder: seq<string>, pairs: Option<map<string, string>>,
                    kinds: MediaKinds): (r: seq<Job>)
    ensures |r| <= |names|
  {
    if names == [] then []
    else
      var init, f := names[..|names| - 1], names[|names| - 1];
      ListJobs(init, folder, pairs, kinds)
      + (if IsMediaFile(f, kinds) then [Job(|init|, folder, f, SecondaryOf(pairs, f))] else [])
  }

  /** Every job is a media file at its position in the list, with its
      secondary. */
  predicate ListedAt(r: seq<Job>, names: seq<string>, folder: seq<string>,
                     pairs: Option<map<string, string>>, kinds: MediaKinds)
  {
    forall a :: 0 <= a < |r| ==>
      && r[a].index < |names| && names[r[a].index] == r[a].fileName
      && IsMediaFile(r[a].fileName, kinds)
      && r[a].folder == folder && r[a].secondary == SecondaryOf(pairs, r[a].fileName)
  }

  /** The jobs follow the list's order. */
  predicate InListOrder(r: seq<Job>) {
    forall a, b :: 0 <= a < b < |r| ==> r[a].index < r[b].index
  }

  lemma ListJobsListed(names: seq<string>, folder: seq<string>,
                       pairs: Option<map<string, string>>, kinds: MediaKinds)
    ensures ListedAt(ListJobs(names, folder, pairs, kinds), names, folder, pairs, kinds)
  {
    ListJobsPicks(names, folder, pairs, kinds);
    PicksFrom(names, MediaTest(kinds), JobMaker(folder, pairs), JobIndex);
  }

  lemma ListJobsOrdered(names: seq<string>, folder: seq<string>,
                        pairs: Option<map<string, string>>, kinds: MediaKinds)
    ensures InListOrder(ListJobs(names, folder, pairs, kinds))
  {
    ListJobsPicks(names, folder, pairs, kinds);
    var r := Picks(names, MediaTest(kinds), JobMaker(folder, pairs));
    PicksFrom(names, MediaTest(kinds), JobMaker(folder, pairs), JobIndex);
    forall a, b | 0 <= a < b < |r| ensures r[a].index < r[b].index {
      assert JobIndex(r[a]) < JobIndex(r[b]);
    }
  }

  /** Conversely, every media file in the list has its job. */
  lemma {:induction false} ListJobsCovers(names: seq<string>, folder: seq<string>,
                                          pairs: Option<map<string, string>>, kinds: MediaKinds)
    ensures forall i :: 0 <= i < |names| && IsMediaFile(names[i], kinds) ==>
      Job(i, folder, names[i], SecondaryOf(pairs, names[i])) in ListJobs(names, folder, pairs, kinds)
  {
    ListJobsPicks(names, folder, pairs, kinds);
    forall i | 0 <= i < |names| && IsMediaFile(names[i], kinds)
      ensures Job(i, folder, names[i], SecondaryOf(pairs, names[i])) in ListJobs(names, folder, pairs, kinds)
    {
      PicksHas(names, i, MediaTest(kinds), JobMaker(folder, pairs));
    }
  }

  function MediaTest(kinds: MediaKinds): string -> bool {
    f => IsMediaFile(f, kinds)
  }

  function JobMaker(folder: seq<string>, pairs: Option<map<string, string>>): (nat, string) -> Job {
    (i: nat, f: string) => Job(i, folder, f, SecondaryOf(pairs, f))
  }

  function JobIndex(j: Job): nat {
    j.index
  }

  /** The jobs are the picks of the media files. */
  lemma {:induction false} ListJobsPicks(names: seq<string>, folder: seq<string>,
                                         pairs: Option<map<string, string>>, kinds: MediaKinds)
    ensures ListJobs(names, folder, pairs, kinds) == Picks(names, MediaTest(kinds), JobMaker(folder, pairs))
  {
    if names != [] {
      ListJobsPicks(names[..|names| - 1], folder, pairs, kinds);
    }
  }

  lemma ListJobsStep(names: seq<string>, i: nat, folder: seq<string>, pairs: Option<map<string, string>>,
                     kinds: MediaKinds)
    requires i < |names|
    ensures ListJobs(names[..i + 1], folder, pairs, kinds)
            == ListJobs(names[..i], folder, pairs, kinds)
               + if IsMediaFile(names[i], kinds) then [Job(i, folder, names[i], SecondaryOf(pairs, names[i]))] else []
  {
    assert names[..i + 1][..i] == names[..i];
  }

  /** The jobs of one folder, or the key of the missing secondary. */
  datatype FolderJobs = Jobs(jobs: seq<Job>) | Lookup(key: string)

  /** One folder's jobs: every media file in listing order, or with pairing
      every pair's primary in the pair index's order. */
  function VisitJobs(v: Visit, paired: bool, suffix: string, kinds: MediaKinds): (r: FolderJobs)
    requires |suffix| > 0
    ensures r.Lookup? <==> paired && PairIndex(v.files, suffix, kinds).MissingSecondary?
    ensures !paired ==> r == Jobs(ListJobs(v.files, v.folder, None, kinds))
  {
    if !paired then Jobs(ListJobs(v.files, v.folder, None, kinds))
    else
      match PairIndex(v.files, suffix, kinds)
      case MissingSecondary(k) => Lookup(k)
      case Paired(idx) => Jobs(ListJobs(idx.keys, v.folder, Some(idx.m), kinds))
  }

  /** The jobs of every visit of the walk, in walk order. */
  function FolderJobsOf(vs: seq<Visit>, paired: bool, suffix: string, kinds: MediaKinds): (r: seq<FolderJobs>)
    requires |suffix| > 0
    ensures |r| == |vs|
  {
    if vs == [] then []
    else FolderJobsOf(vs[..|vs| - 1], paired, suffix, kinds) + [VisitJobs(vs[|vs| - 1], paired, suffix, kinds)]
  }

  /** The `i`-th entry is the jobs of the `i`-th visit. */
  lemma {:induction false} FolderJobsAt(vs: seq<Visit>, i: nat, paired: bool, suffix: string, kinds: MediaKinds)
    requires |suffix| > 0 && i < |vs|
    ensures FolderJobsOf(vs, paired, suffix, kinds)[i] == VisitJobs(vs[i], paired, suffix, kinds)
  {
    if i < |vs| - 1 {
      var init := vs[..|vs| - 1];
      FolderJobsAt(init, i, paired, suffix, kinds);
      assert init[i] == vs[i];
    }
  }

  /** The jobs of the folders up to the first whose pairing fails, and
      that failure's key. */
  datatype Plan = Plan(jobs: seq<Job>, stop: Option<string>)

  function PlanOf(fs: seq<FolderJobs>): Plan {
    if fs == [] then Plan([], None)
    else
      var p := PlanOf(fs[..|fs| - 1]);
      if p.stop.Some? then p
      else
        match fs[|fs| - 1]
        case Lookup(k) => Plan(p.jobs, Some(k))
        case Jobs(js) => Plan(p.jobs + js, None)
  }

  /** The plan runs to the end exactly when no folder fails, and a stop
      names the first folder that does. */
  lemma {:induction false} PlanStop(fs: seq<FolderJobs>)
    ensures PlanOf(fs).stop.None? <==> forall i :: 0 <= i < |fs| ==> fs[i].Jobs?
    ensures PlanOf(fs).stop.Some? ==>
      exists i :: 0 <= i < |fs| && fs[i] == Lookup(PlanOf(fs).stop.value) && forall j :: 0 <= j < i ==> fs[j].Jobs?
  {
    if fs != [] {
      var init := fs[..|fs| - 1];
      PlanStop(init);
      assert forall i :: 0 <= i < |init| ==> init[i] == fs[i];
      if PlanOf(init).stop.Some? {
        var i :| 0 <= i < |init| && init[i] == Lookup(PlanOf(init).stop.value) && forall j :: 0 <= j < i ==> init[j].Jobs?;
        assert fs[i] == Lookup(PlanOf(fs).stop.value);
      } else if fs[|fs| - 1].Lookup? {
        assert fs[|fs| - 1] == Lookup(PlanOf(fs).stop.value);
      }
    }
  }

  /** A stop is final: later folders add nothing. */
  lemma {:induction false} PlanStopFinal(fs: seq<FolderJobs>, v: nat)
    requires v <= |fs|
    requires PlanOf(fs[..v]).stop.Some?
    ensures PlanOf(fs) == PlanOf(fs[..v])
    decreases |fs| - v
  {
    if v < |fs| {
      assert fs[..v + 1][..v] == fs[..v];
      PlanStopFinal(fs, v + 1);
    } else {
      assert fs[..v] == fs;
    }
  }

  /** The jobs planned for the first folders come first in the plan. */
  lemma {:induction false} PlanPrefix(fs: seq<FolderJobs>, v: nat)
    requires v <= |fs|
    ensures var p, q := PlanOf(fs[..v]), PlanOf(fs);
      |p.jobs| <= |q.jobs| && q.jobs[..|p.jobs|] == p.jobs
    decreases |fs| - v
  {
    if v < |fs| {
      assert fs[..v + 1][..v] == fs[..v];
      PlanPrefix(fs, v + 1);
      var p, p1, q := PlanOf(fs[..v]), PlanOf(fs[..v + 1]), PlanOf(fs);
      assert q.jobs[..|p.jobs|] == q.jobs[..|p1.jobs|][..|p.jobs|];
    } else {
      assert fs[..v] == fs;
    }
  }

  // ---------------------------------------------------------------------
  // What the jobs turn into

  /** A path inside the import folder. */
  datatype FilePath = FilePath(folder: seq<string>, name: string)

  /** The file context of a job, given the names the collection assigns. */
  function JobContext(j: Job, nameOf: FilePath -> string): FileContext {
    FileContext(j.fileName, j.index, j.folder, nameOf(FilePath(j.folder, j.fileName)),
                if j.secondary.Some? then nameOf(FilePath(j.folder, j.secondary.value)) else "")
  }

  /** The note a job creates. */
  function JobNote(j: Job, ms: seq<Mapping>, kinds: MediaKinds, nameOf: FilePath -> string): Note {
    AssembleNote(ms, JobContext(j, nameOf), kinds)
  }

  function NoteFor(ms: seq<Mapping>, kinds: MediaKinds, nameOf: FilePath -> string): Job -> Note {
    j => JobNote(j, ms, kinds, nameOf)
  }

  /** The files a job adds to the collection: the file, then its secondary. */
  function JobMedia(j: Job): seq<FilePath> {
    [FilePath(j.folder, j.fileName)] + if j.secondary.Some? then [FilePath(j.folder, j.secondary.value)] else []
  }

  function MediaOf(js: seq<Job>): seq<FilePath> {
    if js == [] then [] else MediaOf(js[..|js| - 1]) + JobMedia(js[|js| - 1])
  }

  lemma {:induction false} MediaOfAppend(a: seq<Job>, b: seq<Job>)
    ensures MediaOf(a + b) == MediaOf(a) + MediaOf(b)
  {
    if b == [] {
      assert a + b == a;
    } else {
      assert (a + b)[..|a + b| - 1] == a + b[..|b| - 1];
      MediaOfAppend(a, b[..|b| - 1]);
    }
  }

  /** Every job adds its file, then its secondary when it has one. */
  lemma {:induction false} MediaOfCount(js: seq<Job>)
    ensures |MediaOf(js)| == |js| + |set i | 0 <= i < |js| && js[i].secondary.Some?|
  {
    if js != [] {
      var init := js[..|js| - 1];
      MediaOfCount(init);
      var s := set i | 0 <= i < |init| && init[i].secondary.Some?;
      var t := set i | 0 <= i < |js| && js[i].secondary.Some?;
      if js[|js| - 1].secondary.Some? {
        assert t == s + {|js| - 1};
      } else {
        assert t == s;
      }
    }
  }

  /** How an import ends: the dialog was cancelled, all folders were
      done, the walk stopped at a refused note, or a missing secondary
      aborted it; with the number of notes created. */
  datatype Outcome = Cancelled | Completed(count: nat) | AddNoteFailed(count: nat) | LookupFailed(key: string, count: nat)

  function ExpectedOutcome(p: Plan, k: nat): (r: Outcome)
    ensures !r.Cancelled?
    ensures r.AddNoteFailed? <==> k < |p.jobs|
    ensures r.Completed? <==> k >= |p.jobs| && p.stop.None?
  {
    if k < |p.jobs| then AddNoteFailed(k)
    else if p.stop.Some? then LookupFailed(p.stop.value, k)
    else Completed(k)
  }

  // ---------------------------------------------------------------------
  // The collection (the host's media folder and note store)

  /** The host collection: `internalName` is the name `media.add_file`
      gives a file, `accepts` whether `addNote` creates cards for a note.
      `mediaAdded` and `notes` record what the import adds. */
  class Collection {
    const internalName: FilePath -> string
    const accepts: Note -> bool
    var mediaAdded: seq<FilePath>
    var notes: seq<Note>

    constructor (internalName: FilePath -> string, accepts: Note -> bool)
      ensures this.internalName == internalName && this.accepts == accepts
      ensures mediaAdded == [] && notes == []
    {
      this.internalName := internalName;
      this.accepts := accepts;
      mediaAdded := [];
      notes := [];
    }

    /** `media.add_file(path)` */
    method AddFile(p: FilePath) returns (name: string)
      modifies this
      ensures mediaAdded == old(mediaAdded) + [p] && notes == old(notes)
      ensures name == internalName(p)
    {
      mediaAdded := mediaAdded + [p];
      name := internalName(p);
    }

    /** `addNote(note)`: a refused note is not stored. */
    method AddNote(n: Note) returns (ok: bool)
      modifies this
      ensures ok == accepts(n)
      ensures notes == old(notes) + (if ok then [n] else []) && mediaAdded == old(mediaAdded)
    {
      ok := accepts(n);
      if ok {
        notes := notes + [n];
      }
    }
  }

  // ---------------------------------------------------------------------
  // The walk

  /** Some mapping uses the secondary media action. */
  predicate UsesSecondary(ms: seq<Mapping>) {
    exists j :: 0 <= j < |ms| && ms[j].action == "Media_2"
  }

  /** The scan for `file_pairs_used` (lines 80-83). */
  method PairsUsed(ms: seq<Mapping>) returns (used: bool)
    ensures used <==> UsesSecondary(ms)
  {
    used := false;
    var k := 0;
    while k < |ms|
      invariant 0 <= k <= |ms|
      invariant used <==> exists j :: 0 <= j < k && ms[j].action == "Media_2"
    {
      if ms[k].action == "Media_2" {
        used := true;
      }
      k := k + 1;
    }
  }

  /** The media files of one folder's list, as jobs (the skip test of
      lines 165-167). */
  method ListMediaJobs(names: seq<string>, folder: seq<string>, pairs: Option<map<string, string>>,
                       kinds: MediaKinds) returns (jobs: seq<Job>)
    requires pairs.Some? ==> forall n :: n in names ==> n in pairs.value
    ensures jobs == ListJobs(names, folder, pairs, kinds)
  {
    jobs := [];
    var i := 0;
    while i < |names|
      invariant 0 <= i <= |names|
      invariant jobs == ListJobs(names[..i], folder, pairs, kinds)
    {
      ListJobsStep(names, i, folder, pairs, kinds);
      var fileName := names[i];
      if IsMediaFile(fileName, kinds) {
        var secondary := None;
        if pairs.Some? {
          assert fileName in names;
          secondary := Some(pairs.value[fileName]);
        }
        jobs := jobs + [Job(i, folder, fileName, secondary)];
      }
      i := i + 1;
    }
    assert names[..i] == names;
  }

  /** One file's note (lines 160-227 for one file): add the file and its
      secondary, fill the note and offer it to the collection. */
  method ImportFile(c: Collection, job: Job, ms: seq<Mapping>, kinds: MediaKinds) returns (accepted: bool)
    modifies c
    ensures accepted == c.accepts(JobNote(job, ms, kinds, c.internalName))
    ensures c.mediaAdded == old(c.mediaAdded) + JobMedia(job)
    ensures c.notes == old(c.notes) + if accepted then [JobNote(job, ms, kinds, c.internalName)] else []
  {
    var id := c.AddFile(FilePath(job.folder, job.fileName));
    var id2 := "";
    if job.secondary.Some? {
      id2 := c.AddFile(FilePath(job.folder, job.secondary.value));
    }
    var note := FillNote(ms, FileContext(job.fileName, job.index, job.folder, id, id2), kinds);
    assert FileContext(job.fileName, job.index, job.folder, id, id2) == JobContext(job, c.internalName);
    accepted := c.AddNote(note);
  }

  /** The note loop of one folder (lines 159-234): with k the position of
      the first job whose note is refused, the notes of the jobs before it
      are stored, and the files of the jobs up to and including it are
      added. */
  method ImportJobs(c: Collection, jobs: seq<Job>, ms: seq<Mapping>, kinds: MediaKinds) returns (added: nat, ok: bool)
    modifies c
    ensures var k := FirstFalse(MapSeq(jobs, NoteFor(ms, kinds, c.internalName)), c.accepts);
      && added == k && (ok <==> k == |jobs|)
      && c.notes == old(c.notes) + MapSeq(jobs[..k], NoteFor(ms, kinds, c.internalName))
      && c.mediaAdded == old(c.mediaAdded) + MediaOf(Attempted(jobs, k))
  {
    ghost var note, acc := NoteFor(ms, kinds, c.internalName), c.accepts;
    ghost var notes0, media0 := c.notes, c.mediaAdded;
    added := 0;
    while added < |jobs|
      invariant 0 <= added <= |jobs|
      invariant AllHold(MapSeq(jobs[..added], note), acc)
      invariant c.notes == notes0 + MapSeq(jobs[..added], note)
      invariant c.mediaAdded == media0 + MediaOf(jobs[..added])
    {
      var job := jobs[added];
      ghost var done := jobs[..added];
      assert jobs[..added + 1] == done + [job];
      RunStep(done, job, note, acc);
      MediaOfAppend(done, [job]);
      assert MediaOf([job]) == JobMedia(job) by {
        assert [job][..0] == [];
      }
      SeqAssoc(media0, MediaOf(done), JobMedia(job));
      var accepted := ImportFile(c, job, ms, kinds);
      if !accepted {
        RunStopsAt(jobs, added, note, acc);
        return added, false;
      }
      SeqAssoc(notes0, MapSeq(done, note), [note(job)]);
      added := added + 1;
    }
    assert jobs[..added] == jobs;
    FirstFalseAll(MapSeq(jobs, note), acc);
    ok := true;
  }

  // ---------------------------------------------------------------------
  // The whole import

  /** Every file name in the walk is non-empty, as on any file system. */
  predicate FileNamesNonEmpty(vs: seq<Visit>) {
    forall v, i :: v in vs && 0 <= i < |v.files| ==> v.files[i] != ""
  }

  /** The jobs of the whole walk, cut at the first failed pairing. */
  function ImportPlan(root: Folder, recursive: bool, ms: seq<Mapping>, suffix: string, kinds: MediaKinds): Plan
    requires |suffix| > 0
  {
    PlanOf(FolderJobsOf(Visits(root, recursive), UsesSecondary(ms), suffix, kinds))
  }

  /** What importing one folder whose jobs are `fj` does: a missing
      secondary stops it before anything is added; otherwise its jobs are
      imported in order up to the first refused note (`ok` when there is
      none), storing the accepted notes and adding the files of every job
      attempted. */
  predicate FolderEffect(fj: FolderJobs, note: Job -> Note, acc: Note -> bool,
                         added: nat, ok: bool, missing: Option<string>,
                         notes0: seq<Note>, media0: seq<FilePath>, notes: seq<Note>, media: seq<FilePath>)
  {
    match fj
    case Lookup(key) =>
      && missing == Some(key) && added == 0
      && notes == notes0 && media == media0
    case Jobs(jobs) =>
      var k := FirstFalse(MapSeq(jobs, note), acc);
      && missing == None && added == k && (ok <==> k == |jobs|)
      && notes == notes0 + MapSeq(jobs[..k], note)
      && media == media0 + MediaOf(Attempted(jobs, k))
  }

  /** One step of the walk (lines 92-235 for one folder): the folder's
      jobs are carried out up to the first refused note, or nothing is
      done when its pairing misses a secondary. */
  method ImportFolder(c: Collection, visit: Visit, paired: bool, ms: seq<Mapping>, suffix: string,
                      kinds: MediaKinds) returns (added: nat, ok: bool, missing: Option<string>)
    requires |suffix| > 0
    requires forall i :: 0 <= i < |visit.files| ==> visit.files[i] != ""
    modifies c
    ensures FolderEffect(VisitJobs(visit, paired, suffix, kinds), NoteFor(ms, kinds, c.internalName), c.accepts,
                         added, ok, missing, old(c.notes), old(c.mediaAdded), c.notes, c.mediaAdded)
  {
    var names := visit.files;
    var pairs := None;
    if paired {
      var r := BuildPairIndex(visit.files, suffix, kinds);
      if r.MissingSecondary? {
        return 0, false, Some(r.key);
      }
      names := r.index.keys;
      pairs := Some(r.index.m);
    }
    var jobs := ListMediaJobs(names, visit.folder, pairs, kinds);
    added, ok := ImportJobs(c, jobs, ms, kinds);
    missing := None;
  }

  /** The folder loop of lines 91-235 over the visits of the walk. */
  method ImportVisits(c: Collection, visits: seq<Visit>, paired: bool, ms: seq<Mapping>, suffix: string,
                      kinds: MediaKinds) returns (outcome: Outcome)
    requires |suffix| > 0
    requires FileNamesNonEmpty(visits)
    modifies c
    ensures Finished(FolderJobsOf(visits, paired, suffix, kinds), NoteFor(ms, kinds, c.internalName), c.accepts,
                     outcome, old(c.notes), old(c.mediaAdded), c.notes, c.mediaAdded)
  {
    ghost var fjs := FolderJobsOf(visits, paired, suffix, kinds);
    ghost var notes0, media0 := c.notes, c.mediaAdded;
    ghost var note, acc := NoteFor(ms, kinds, c.internalName), c.accepts;
    ghost var done: seq<Job> := [];
    var count := 0;
    var v := 0;
    while v < |visits|
      invariant v <= |visits| && count == |done|
      invariant Progress(fjs, v, done, note, acc, notes0, media0, c.notes, c.mediaAdded)
    {
      var stop;
      stop, count, done := ImportFolderAt(c, visits, v, count, paired, ms, suffix, kinds, fjs, note, acc, done,
                                          notes0, media0);
      if stop.Some? {
        return stop.value;
      }
      v := v + 1;
    }
    CompletedLogs(fjs, done, note, acc, notes0, media0, c.notes, c.mediaAdded);
    return Completed(count);
  }

  /** `ImportFolder` on the `v`-th visit, whose jobs are `fjs[v]`. */
  method ImportVisit(c: Collection, visits: seq<Visit>, v: nat, paired: bool, ms: seq<Mapping>,
                     suffix: string, kinds: MediaKinds, ghost fjs: seq<FolderJobs>)
    returns (added: nat, ok: bool, missing: Option<string>)
    requires |suffix| > 0
    requires FileNamesNonEmpty(visits)
    requires v < |visits| && fjs == FolderJobsOf(visits, paired, suffix, kinds)
    modifies c
    ensures FolderEffect(fjs[v], NoteFor(ms, kinds, c.internalName), c.accepts,
                         added, ok, missing, old(c.notes), old(c.mediaAdded), c.notes, c.mediaAdded)
  {
    var visit := visits[v];
    FolderJobsAt(visits, v, paired, suffix, kinds);
    assert visit in visits;
    added, ok, missing := ImportFolder(c, visit, paired, ms, suffix, kinds);
  }

  /** One pass of the folder loop, for the `v`-th visit, after the jobs
      `done` of the earlier folders created `count` notes: it ends the
      import with the promised outcome, or leaves the loop's state one
      folder further with the new count. */
  method ImportFolderAt(c: Collection, visits: seq<Visit>, v: nat, count: nat, paired: bool, ms: seq<Mapping>,
                        suffix: string, kinds: MediaKinds, ghost fjs: seq<FolderJobs>, ghost note: Job -> Note,
                        ghost acc: Note -> bool, ghost done: seq<Job>, ghost notes0: seq<Note>,
                        ghost media0: seq<FilePath>)
    returns (stop: Option<Outcome>, count': nat, ghost done': seq<Job>)
    requires |suffix| > 0
    requires FileNamesNonEmpty(visits)
    requires v < |visits| && fjs == FolderJobsOf(visits, paired, suffix, kinds) && count == |done|
    requires note == NoteFor(ms, kinds, c.internalName) && acc == c.accepts
    requires Progress(fjs, v, done, note, acc, notes0, media0, c.notes, c.mediaAdded)
    modifies c
    ensures stop.Some? ==> Finished(fjs, note, acc, stop.value, notes0, media0, c.notes, c.mediaAdded)
    ensures stop.None? ==>
      && fjs[v].Jobs? && done' == done + fjs[v].jobs && count' == |done'|
      && Progress(fjs, v + 1, done', note, acc, notes0, media0, c.notes, c.mediaAdded)
  {
    ghost var notes1, media1 := c.notes, c.mediaAdded;
    var added, ok, missing := ImportVisit(c, visits, v, paired, ms, suffix, kinds, fjs);
    stop := FolderStop(missing, ok, count, added);
    FolderLogs(fjs, v, done, note, acc, notes0, media0, notes1, media1, added, ok, missing,
               c.notes, c.mediaAdded, stop);
    count' := count + added;
    done' := if stop.None? then done + fjs[v].jobs else done;
  }

  /** How one folder's result ends the import: a missing secondary or a
      refused note stops it, with the notes created so far. */
  function FolderStop(missing: Option<string>, ok: bool, count: nat, added: nat): Option<Outcome> {
    if missing.Some? then Some(LookupFailed(missing.value, count))
    else if !ok then Some(AddNoteFailed(count + added))
    else None
  }

  /** One folder's effect, after the loop's state for the earlier ones,
      gives the import's promise when it stops there and the loop's state
      one folder further when it does not. */
  lemma FolderLogs(fjs: seq<FolderJobs>, v: nat, done: seq<Job>, note: Job -> Note, acc: Note -> bool,
                   notes0: seq<Note>, media0: seq<FilePath>, notes1: seq<Note>, media1: seq<FilePath>,
                   added: nat, ok: bool, missing: Option<string>, notes: seq<Note>, media: seq<FilePath>,
                   stop: Option<Outcome>)
    requires Progress(fjs, v, done, note, acc, notes0, media0, notes1, media1)
    requires v < |fjs| && FolderEffect(fjs[v], note, acc, added, ok, missing, notes1, media1, notes, media)
    requires stop == FolderStop(missing, ok, |done|, added)
    ensures stop.Some? ==> Finished(fjs, note, acc, stop.value, notes0, media0, notes, media)
    ensures stop.None? ==>
      && fjs[v].Jobs? && |done| + added == |done + fjs[v].jobs|
      && Progress(fjs, v + 1, done + fjs[v].jobs, note, acc, notes0, media0, notes, media)
  {
    if missing.Some? {
      LookupLogs(fjs, v, done, note, acc, notes0, media0, notes1, media1, added, ok, missing, notes, media);
    } else if !ok {
      StoppedLogs(fjs, v, done, note, acc, notes0, media0, notes1, media1, added, ok, missing, notes, media);
    } else {
      ExtendedLogs(fjs, v, done, note, acc, notes0, media0, notes1, media1, added, ok, missing, notes, media);
    }
  }

  /** The loop's state after `v` folders: the plan so far has not stopped
      and holds the jobs `done`, all of whose notes were accepted and
      stored, and whose files were added. */
  predicate Progress(fjs: seq<FolderJobs>, v: nat, done: seq<Job>, note: Job -> Note, acc: Note -> bool,
                     notes0: seq<Note>, media0: seq<FilePath>, notes: seq<Note>, media: seq<FilePath>)
  {
    && v <= |fjs| && PlanOf(fjs[..v]) == Plan(done, None)
    && AllHold(MapSeq(done, note), acc)
    && notes == notes0 + MapSeq(done, note)
    && media == media0 + MediaOf(done)
  }

  /** The outcome and the additions the whole import promises for the
      folders `fjs`. */
  predicate Finished(fjs: seq<FolderJobs>, note: Job -> Note, acc: Note -> bool, outcome: Outcome,
                     notes0: seq<Note>, media0: seq<FilePath>, notes: seq<Note>, media: seq<FilePath>)
  {
    var p := PlanOf(fjs);
    var k := FirstFalse(MapSeq(p.jobs, note), acc);
    && outcome == ExpectedOutcome(p, k)
    && notes == notes0 + MapSeq(p.jobs[..k], note)
    && media == media0 + MediaOf(Attempted(p.jobs, k))
  }

  /** A folder with a missing secondary ends the import there. */
  lemma LookupLogs(fjs: seq<FolderJobs>, v: nat, done: seq<Job>, note: Job -> Note, acc: Note -> bool,
                   notes0: seq<Note>, media0: seq<FilePath>, notes1: seq<Note>, media1: seq<FilePath>,
                   added: nat, ok: bool, missing: Option<string>, notes: seq<Note>, media: seq<FilePath>)
    requires Progress(fjs, v, done, note, acc, notes0, media0, notes1, media1)
    requires v < |fjs| && FolderEffect(fjs[v], note, acc, added, ok, missing, notes1, media1, notes, media)
    requires missing.Some?
    ensures Finished(fjs, note, acc, LookupFailed(missing.value, |done|), notes0, media0, notes, media)
  {
    assert fjs[..v + 1][..v] == fjs[..v];
    PlanStopFinal(fjs, v + 1);
    FirstFalseAll(MapSeq(done, note), acc);
    assert done[..|done|] == done;
  }

  /** The jobs of a folder reached without a stop follow the earlier
      folders' jobs in the plan. */
  lemma PlannedBefore(fjs: seq<FolderJobs>, v: nat, done: seq<Job>)
    requires v < |fjs| && fjs[v].Jobs? && PlanOf(fjs[..v]) == Plan(done, None)
    ensures var all, jobs := PlanOf(fjs).jobs, fjs[v].jobs;
      |done| + |jobs| <= |all| && all[..|done| + |jobs|] == done + jobs
  {
    assert fjs[..v + 1][..v] == fjs[..v];
    assert PlanOf(fjs[..v + 1]) == Plan(done + fjs[v].jobs, None);
    PlanPrefix(fjs, v + 1);
  }

  /** A folder with a refused note ends the import at that note. */
  lemma StoppedLogs(fjs: seq<FolderJobs>, v: nat, done: seq<Job>, note: Job -> Note, acc: Note -> bool,
                    notes0: seq<Note>, media0: seq<FilePath>, notes1: seq<Note>, media1: seq<FilePath>,
                    added: nat, ok: bool, missing: Option<string>, notes: seq<Note>, media: seq<FilePath>)
    requires Progress(fjs, v, done, note, acc, notes0, media0, notes1, media1)
    requires v < |fjs| && FolderEffect(fjs[v], note, acc, added, ok, missing, notes1, media1, notes, media)
    requires missing.None? && !ok
    ensures Finished(fjs, note, acc, AddNoteFailed(|done| + added), notes0, media0, notes, media)
  {
    var jobs := fjs[v].jobs;
    var k := FirstFalse(MapSeq(jobs, note), acc);
    PlannedBefore(fjs, v, done);
    var all := PlanOf(fjs).jobs;
    RunStopsIn(all, done, jobs, k, note, acc);
    MediaOfAppend(done, Attempted(jobs, k));
    SeqAssoc(notes0, MapSeq(done, note), MapSeq(jobs[..k], note));
    SeqAssoc(media0, MediaOf(done), MediaOf(Attempted(jobs, k)));
  }

  /** A folder whose notes were all accepted extends the run. */
  lemma ExtendedLogs(fjs: seq<FolderJobs>, v: nat, done: seq<Job>, note: Job -> Note, acc: Note -> bool,
                     notes0: seq<Note>, media0: seq<FilePath>, notes1: seq<Note>, media1: seq<FilePath>,
                     added: nat, ok: bool, missing: Option<string>, notes: seq<Note>, media: seq<FilePath>)
    requires Progress(fjs, v, done, note, acc, notes0, media0, notes1, media1)
    requires v < |fjs| && FolderEffect(fjs[v], note, acc, added, ok, missing, notes1, media1, notes, media)
    requires missing.None? && ok
    ensures fjs[v].Jobs? && added == |fjs[v].jobs|
    ensures Progress(fjs, v + 1, done + fjs[v].jobs, note, acc, notes0, media0, notes, media)
  {
    var jobs := fjs[v].jobs;
    assert fjs[..v + 1][..v] == fjs[..v];
    RunExtends(done, jobs, note, acc);
    MediaOfAppend(done, jobs);
    SeqAssoc(notes0, MapSeq(done, note), MapSeq(jobs, note));
    SeqAssoc(media0, MediaOf(done), MediaOf(jobs));
  }

  /** The import reaches the last folder with every note accepted. */
  lemma CompletedLogs(fjs: seq<FolderJobs>, done: seq<Job>, note: Job -> Note, acc: Note -> bool,
                      notes0: seq<Note>, media0: seq<FilePath>, notes: seq<Note>, media: seq<FilePath>)
    requires Progress(fjs, |fjs|, done, note, acc, notes0, media0, notes, media)
    ensures Finished(fjs, note, acc, Completed(|done|), notes0, media0, notes, media)
  {
    assert fjs[..|fjs|] == fjs;
    FirstFalseAll(MapSeq(done, note), acc);
    assert done[..|done|] == done;
  }

  /** `doMediaImport` from the dialog's result on (lines 72-236): with the
      plan P of the walk and k the position of its first refused note, the
      notes of P's first k jobs are created, the files of the jobs up to
      and including the refused one are added, and the outcome reports
      why the walk ended and how many notes it created. */
  method DoMediaImport(c: Collection, confirmed: bool, root: Folder, recursive: bool, ms: seq<Mapping>,
                       suffix: string, kinds: MediaKinds) returns (outcome: Outcome)
    requires |suffix| > 0
    requires FileNamesNonEmpty(Visits(root, recursive))
    modifies c
    ensures !confirmed ==> outcome == Cancelled && c.notes == old(c.notes) && c.mediaAdded == old(c.mediaAdded)
    ensures confirmed ==>
      var p := ImportPlan(root, recursive, ms, suffix, kinds);
      var k := FirstFalse(MapSeq(p.jobs, NoteFor(ms, kinds, c.internalName)), c.accepts);
      && outcome == ExpectedOutcome(p, k)
      && c.notes == old(c.notes) + MapSeq(p.jobs[..k], NoteFor(ms, kinds, c.internalName))
      && c.mediaAdded == old(c.mediaAdded) + MediaOf(Attempted(p.jobs, k))
  {
    if !confirmed {
      return Cancelled;
    }
    var paired := PairsUsed(ms);
    outcome := ImportVisits(c, Visits(root, recursive), paired, ms, suffix, kinds);
  }
}
