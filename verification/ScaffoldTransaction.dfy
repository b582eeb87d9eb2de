/** The scaffold transaction: plan, journal, exclusive creation, manifest commit, rollback, recovery.

    A `Repository` holds the disk. Other programs may change it between any two steps (`Interfere`), and
    any call into the file system may fail (`SystemCallFails`). Two constants switch these off, so that
    one program text carries three kinds of result: what holds whatever others do, what holds when nobody
    interferes, and what holds when, besides, no system call fails.

    `effects` records every write of this program with the disk before and after it. A crash right after
    a write leaves exactly the disk recorded there, so "for every crash point" is "for every effect".
 */
module ScaffoldTransaction {
  import opened Prelude
  import opened ScaffoldModel
  import opened ScaffoldCrash

  datatype Effect = Effect(before: Disk, after: Disk)

  datatype WriteError = TargetInvalid | TargetAlreadyExists | WriteFailed

  /** `history` holds every disk there was, this program's writes among them. When nobody interferes it
      is those writes, each from the disk the one before it left: a crash leaves a disk of `effects`. */
  ghost predicate IsLinked(history: seq<Disk>, effects: seq<Effect>, disk: Disk, quiet: bool) {
    && history != [] && history[|history|-1] == disk
    && (quiet ==>
          && |history| == |effects| + 1
          && forall i | 0 <= i < |effects| :: history[i] == effects[i].before && history[i+1] == effects[i].after)
  }

  /** This program made the directory. */
  ghost predicate Makes(e: Effect, p: Path) {
    p !in e.before && p in e.after && e.after[p].Directory?
  }

  ghost predicate WasMade(log: seq<Effect>, p: Path) {
    exists k | 0 <= k < |log| :: Makes(log[k], p)
  }

  ghost predicate AllMade(log: seq<Effect>, dirs: seq<Path>) {
    forall i | 0 <= i < |dirs| :: WasMade(log, dirs[i])
  }

  /** Every new entry is among these. */
  ghost predicate AllReported(d: Disk, d': Disk, dirs: seq<Path>) {
    forall p | p in d' && p !in d :: p in dirs
  }

  lemma OneMoreReported(start: Disk, d: Disk, d': Disk, dirs: seq<Path>, p: Path, made: bool)
    requires AllReported(start, d, dirs) && (d' == d || (made && d' == d[p := Directory]))
    ensures AllReported(start, d', if made then dirs + [p] else dirs)
  {
  }

  ghost predicate IsEmpty(d: Disk, p: Path) {
    forall q | q in d :: !Below(p, q)
  }

  /** Nothing is removed but the journal, files at paths a scaffold may use, and empty directories this
      program made itself. */
  ghost predicate IsOrderly(codec: Codec, log: seq<Effect>, e: Effect) {
    forall p | p in e.before ::
      if e.before[p].Directory?
      then (p in e.after && e.after[p].Directory?) || (p !in e.after && IsEmpty(e.before, p) && !ParentConflict(e.before, p, 1) && WasMade(log, p))
      else p in e.after || p == JOURNAL || (e.before[p].File? && codec.validPath(p))
  }

  ghost predicate AllOrderly(codec: Codec, log: seq<Effect>) {
    forall i | 0 <= i < |log| :: IsOrderly(codec, log[..i], log[i])
  }

  lemma OrderlyNext(codec: Codec, log: seq<Effect>, e: Effect)
    requires AllOrderly(codec, log) && IsOrderly(codec, log, e)
    ensures AllOrderly(codec, log + [e])
  {
    hide IsOrderly;
    var more := log + [e];
    forall i | 0 <= i < |more| ensures IsOrderly(codec, more[..i], more[i]) {
      if i < |log| {
        assert more[..i] == log[..i];
      } else {
        assert more[..i] == log;
      }
    }
  }

  lemma StillMade(log: seq<Effect>, log': seq<Effect>, dirs: seq<Path>)
    requires log <= log' && AllMade(log, dirs)
    ensures AllMade(log', dirs)
  {
    forall i | 0 <= i < |dirs| ensures WasMade(log', dirs[i]) {
      assert WasMade(log, dirs[i]);
      var k :| 0 <= k < |log| && Makes(log[k], dirs[i]);
      assert log'[k] == log[k];
    }
  }

  lemma OneMoreMade(log: seq<Effect>, dirs: seq<Path>, dir: Path)
    requires AllMade(log, dirs) && WasMade(log, dir)
    ensures AllMade(log, dirs + [dir])
  {
  }

  /** At some moment since `from` nothing but directories was above the path. */
  ghost predicate WasClear(history: seq<Disk>, from: nat, p: Path) {
    exists k | from <= k < |history| :: !ParentConflict(history[k], p, 1)
  }

  /** At some moment since `from` the file was missing. */
  ghost predicate WasMissing(history: seq<Disk>, from: nat, f: ScaffoldFile) {
    exists k | from <= k < |history| :: Inspect(history[k], f.path, f.content) == Missing
  }

  lemma SeenNow(history: seq<Disk>, effects: seq<Effect>, d: Disk, quiet: bool, from: nat, later: seq<Disk>)
    requires IsLinked(history, effects, d, quiet) && history <= later && from < |history|
    ensures forall p | !ParentConflict(d, p, 1) :: WasClear(later, from, p)
    ensures forall f: ScaffoldFile | Inspect(d, f.path, f.content) == Missing :: WasMissing(later, from, f)
  {
    var k := |history| - 1;
    assert later[k] == history[k] == d;
    forall p | !ParentConflict(d, p, 1) ensures WasClear(later, from, p) {
      assert !ParentConflict(later[k], p, 1);
    }
    forall f: ScaffoldFile | Inspect(d, f.path, f.content) == Missing ensures WasMissing(later, from, f) {
      assert Inspect(later[k], f.path, f.content) == Missing;
    }
  }

  lemma MissingSinceEarlier(history: seq<Disk>, from: nat, later: nat, files: seq<ScaffoldFile>)
    requires from <= later
    ensures (forall i | 0 <= i < |files| :: WasMissing(history, later, files[i])) ==>
      forall i | 0 <= i < |files| :: WasMissing(history, from, files[i])
  {
  }

  lemma StillMissing(history: seq<Disk>, from: nat, later: seq<Disk>, files: seq<ScaffoldFile>, n: nat)
    requires history <= later && n <= |files| && forall i | 0 <= i < n :: WasMissing(history, from, files[i])
    ensures forall i | 0 <= i < n :: WasMissing(later, from, files[i])
  {
    forall i | 0 <= i < n ensures WasMissing(later, from, files[i]) {
      assert WasMissing(history, from, files[i]);
      var k :| from <= k < |history| && Inspect(history[k], files[i].path, files[i].content) == Missing;
      assert later[k] == history[k];
    }
  }

  ghost predicate SameJournal(d: Disk, d': Disk) {
    (JOURNAL in d <==> JOURNAL in d') && (JOURNAL in d ==> d'[JOURNAL] == d[JOURNAL])
  }

  /** A write that leaves every file and link alone, except that it may remove a listed file whose
      content still has the listed checksum. The manifest and the journal have contracts of their own. */
  ghost predicate Harmless(codec: Codec, e: Effect, listed: seq<JournalFile>) {
    forall p | p in e.before && !e.before[p].Directory? && p != MANIFEST && p != JOURNAL ::
      || (p in e.after && e.after[p] == e.before[p])
      || (p !in e.after && Removable(codec, e.before, listed, p))
  }

  ghost predicate Creates(e: Effect, p: Path) {
    p !in e.before && p in e.after && e.after[p].File?
  }

  ghost predicate KeepsManifest(e: Effect) {
    MANIFEST in e.before && !e.before[MANIFEST].Directory? ==> MANIFEST in e.after && e.after[MANIFEST] == e.before[MANIFEST]
  }

  ghost predicate Removes(e: Effect, p: Path) {
    p in e.before && !e.before[p].Directory? && p !in e.after && p != MANIFEST && p != JOURNAL
  }

  /** Every file removed from position `from` on was created by this same log before. */
  ghost predicate RemovesOnlyItsOwn(log: seq<Effect>, from: nat) {
    forall i, p | from <= i < |log| && Removes(log[i], p) :: exists k | from <= k < i :: Creates(log[k], p)
  }

  /** The same files; directories may have been added. */
  ghost predicate OnlyDirectoriesAdded(d: Disk, d': Disk) {
    (forall p :: FileAt(d', p) == FileAt(d, p)) && Grown(d, d')
  }

  /** Nothing but the manifest changed or disappeared, and every entry still lies in a directory. */
  ghost predicate Grown(d: Disk, d': Disk) {
    && (forall p | p in d && p != MANIFEST :: p in d' && d'[p] == d[p])
    && (WellFormed(d) ==> WellFormed(d'))
  }

  lemma EntryAdded(d: Disk, p: Path, e: Entry)
    requires HasParent(d, p) && (p in d ==> d[p].File? && e.File? && p == MANIFEST)
    ensures Grown(d, d[p := e])
  {
    if WellFormed(d) { StillWellFormed(d, p, e); }
  }

  lemma StillWellFormed(d: Disk, p: Path, e: Entry)
    requires WellFormed(d) && HasParent(d, p) && (p in d ==> !d[p].Directory?)
    ensures WellFormed(d[p := e])
  {
    var d' := d[p := e];
    forall q | q in d' ensures HasParent(d', q) {
      if q != p { assert HasParent(d, q); }
    }
  }

  lemma DirectoryAdded(d: Disk, p: Path)
    requires HasParent(d, p) && p !in d
    ensures OnlyDirectoriesAdded(d, d[p := Directory])
  {
    EntryAdded(d, p, Directory);
  }

  lemma DirectoriesAddedNone(d: Disk)
    ensures OnlyDirectoriesAdded(d, d)
  {
  }

  predicate IsDirectory(d: Disk, p: Path) {
    p == [] || (p in d && d[p].Directory?)
  }

  /** What is new lies above `path`. */
  ghost predicate NewAbove(d: Disk, d': Disk, path: Path) {
    forall p | p in d' && p !in d :: p != [] && Below(p, path)
  }

  lemma NothingNew(d: Disk, path: Path)
    ensures NewAbove(d, d, path)
  {
  }

  lemma NewAboveOneMore(start: Disk, d: Disk, d': Disk, path: Path, k: nat)
    requires 0 < k < |path|
    ensures NewAbove(start, d, path) && (d' == d || d' == d[path[..k] := Directory]) ==> NewAbove(start, d', path)
  {
    PrefixIsBelow(path, k);
  }

  /** The next directory on the way can be made, or is there. */
  lemma NextParent(start: Disk, d: Disk, path: Path, k: nat)
    requires 0 < k < |path|
    ensures ClearParents(start, path) && OnlyDirectoriesAdded(start, d) ==> FileAt(d, path[..k]) == None
    ensures IsDirectory(d, path[..k-1]) ==> HasParent(d, path[..k])
  {
    assert path[..k][..k-1] == path[..k-1];
  }

  lemma ManifestCanBePublished(d: Disk, expected: Option<string>)
    ensures IsDirectory(d, SSEALED) ==> HasParent(d, MANIFEST)
    ensures ManifestAt(d) == Ok(expected) ==> (if expected.None? then MANIFEST !in d else MANIFEST in d && d[MANIFEST].File?)
  {
    assert MANIFEST[..|MANIFEST|-1] == SSEALED;
  }

  ghost predicate DirectoriesSince(log: seq<Effect>, from: nat) {
    forall i | from <= i < |log| :: OnlyDirectoriesAdded(log[i].before, log[i].after)
  }

  ghost predicate DirectoriesFrom(start: Disk, log: seq<Effect>, from: nat) {
    forall i | from <= i < |log| :: OnlyDirectoriesAdded(start, log[i].after)
  }

  lemma GrownSelf(d: Disk)
    ensures Grown(d, d)
  {
  }

  lemma PrefixIsBelow(p: Path, k: nat)
    requires 0 < k < |p|
    ensures p[..k] != [] && Below(p[..k], p)
  {
  }

  lemma DirectoriesAddedTwice(a: Disk, b: Disk, c: Disk)
    requires OnlyDirectoriesAdded(a, b) && OnlyDirectoriesAdded(b, c)
    ensures OnlyDirectoriesAdded(a, c)
  {
  }

  lemma DirectoriesAreHarmless(codec: Codec, e: Effect, listed: seq<JournalFile>)
    requires OnlyDirectoriesAdded(e.before, e.after)
    ensures Harmless(codec, e, listed) && FileAt(e.after, JOURNAL) == FileAt(e.before, JOURNAL)
    ensures KeepsManifest(e)
  {
    forall p | p in e.before && !e.before[p].Directory? ensures p in e.after && e.after[p] == e.before[p] {
      assert FileAt(e.after, p) == FileAt(e.before, p);
    }
  }

  ghost predicate HarmlessSince(codec: Codec, log: seq<Effect>, from: nat, listed: seq<JournalFile>) {
    forall i | from <= i < |log| :: Harmless(codec, log[i], listed)
  }

  ghost predicate KeepsManifestSince(log: seq<Effect>, from: nat) {
    forall i | from <= i < |log| :: KeepsManifest(log[i])
  }

  lemma DirectoriesSinceAreHarmless(codec: Codec, log: seq<Effect>, from: nat)
    requires DirectoriesSince(log, from)
    ensures HarmlessSince(codec, log, from, []) && KeepsManifestSince(log, from)
  {
    forall i | from <= i < |log| ensures Harmless(codec, log[i], []) && KeepsManifest(log[i]) {
      DirectoriesAreHarmless(codec, log[i], []);
    }
  }

  ghost predicate MidwaySince(codec: Codec, t: Transaction, log: seq<Effect>, from: nat) {
    forall i | from <= i < |log| :: Midway(codec, t, log[i].after)
  }

  lemma RemovalIsHarmless(codec: Codec, e: Effect, listed: seq<JournalFile>, i: nat)
    requires i < |listed| && Matches(codec, e.before, listed[i]) && e.after == e.before - {listed[i].path}
    ensures Harmless(codec, e, listed)
  {
    assert Removable(codec, e.before, listed, listed[i].path);
  }

  lemma HarmlessWithMore(codec: Codec, e: Effect, listed: seq<JournalFile>, more: seq<JournalFile>)
    requires Harmless(codec, e, listed) && listed <= more
    ensures Harmless(codec, e, more)
  {
    forall p | Removable(codec, e.before, listed, p) ensures Removable(codec, e.before, more, p) {
      var i :| 0 <= i < |listed| && listed[i].path == p && Matches(codec, e.before, listed[i]);
      assert more[i] == listed[i];
    }
  }

  /** With a journal this program wrote, what is removed is the scaffold's own content. */
  lemma HarmlessMeansOwnContent(codec: Codec, e: Effect, files: seq<ScaffoldFile>, p: Path)
    requires codec.Lawful() && Harmless(codec, e, JournalFiles(codec, files))
    requires p in e.before && e.before[p].File? && p != MANIFEST && p != JOURNAL
    requires p !in e.after || e.after[p] != e.before[p]
    ensures exists i | 0 <= i < |files| :: files[i].path == p && e.before[p] == File(files[i].content)
  {
    var listed := JournalFiles(codec, files);
    var i :| 0 <= i < |listed| && listed[i].path == p && Matches(codec, e.before, listed[i]);
    assert codec.hash(e.before[p].text) == codec.hash(files[i].content);
  }

  /** A write that leaves every file and link alone, except that it may remove one that holds what one of
      `files` says. */
  ghost predicate OwnContent(e: Effect, files: seq<ScaffoldFile>) {
    forall p | p in e.before && !e.before[p].Directory? && p != MANIFEST && p != JOURNAL ::
      || (p in e.after && e.after[p] == e.before[p])
      || (p !in e.after && IsContent(files, p, e.before[p]))
  }

  ghost predicate IsContent(files: seq<ScaffoldFile>, p: Path, entry: Entry) {
    exists i | 0 <= i < |files| :: files[i].path == p && entry == File(files[i].content)
  }

  ghost predicate OwnContentSince(log: seq<Effect>, from: nat, files: seq<ScaffoldFile>) {
    forall i | from <= i < |log| :: OwnContent(log[i], files)
  }

  /** What the journal file says, if it is a journal. */
  function JournalEntry(codec: Codec, d: Disk): Option<Journal> {
    if JOURNAL in d && d[JOURNAL].File? then codec.parseJournal(d[JOURNAL].text) else None
  }

  /** The journal on the disk is the one this program writes for a transaction. */
  ghost predicate JournalIs(codec: Codec, d: Disk, t: Transaction) {
    codec.Lawful() && JOURNAL in d && d[JOURNAL] == File(JournalText(codec, t))
  }

  /** A journal with these files was on the disk at some moment since `from`. */
  ghost predicate ReadSince(codec: Codec, history: seq<Disk>, from: nat, listed: seq<JournalFile>) {
    exists k | from <= k < |history| :: Lists(codec, history[k], listed)
  }

  ghost predicate Lists(codec: Codec, d: Disk, listed: seq<JournalFile>) {
    JournalEntry(codec, d).Some? && JournalEntry(codec, d).value.files == listed
  }

  lemma HistoryBegan(history: seq<Disk>, effects: seq<Effect>, disk: Disk, quiet: bool)
    requires IsLinked(history, effects, disk, quiet)
    ensures |history| > 0
  {
  }

  lemma LinkedLast(history: seq<Disk>, effects: seq<Effect>, disk: Disk, quiet: bool)
    requires IsLinked(history, effects, disk, quiet)
    ensures history != [] && history[|history|-1] == disk
  {
  }

  lemma WasRead(codec: Codec, history: seq<Disk>, more: seq<Disk>, from: nat, listed: seq<JournalFile>)
    requires from < |history| && history <= more && Lists(codec, history[|history|-1], listed)
    ensures ReadSince(codec, more, from, listed)
  {
    assert more[|history|-1] == history[|history|-1];
  }

  lemma HarmlessIsOwn(codec: Codec, e: Effect, files: seq<ScaffoldFile>)
    requires codec.Lawful() && Harmless(codec, e, JournalFiles(codec, files))
    ensures OwnContent(e, files)
  {
    forall p | p in e.before && !e.before[p].Directory? && p != MANIFEST && p != JOURNAL
               && !(p in e.after && e.after[p] == e.before[p])
      ensures p !in e.after && IsContent(files, p, e.before[p])
    {
      assert Removable(codec, e.before, JournalFiles(codec, files), p);
      HarmlessMeansOwnContent(codec, e, files, p);
    }
  }

  /** When the journal is the one of a transaction and others left it alone, what recovery removed was the
      transaction's own content. */
  lemma RecoveredIsOwn(codec: Codec, log: seq<Effect>, from: nat, listed: seq<JournalFile>, d: Disk, t: Transaction)
    requires HarmlessSince(codec, log, from, listed) && (from < |log| ==> Lists(codec, d, listed)) && JournalIs(codec, d, t)
    ensures OwnContentSince(log, from, t.files)
  {
    if from < |log| {
      assert listed == JournalFiles(codec, t.files);
      hide Harmless, OwnContent;
      forall i | from <= i < |log| ensures OwnContent(log[i], t.files) {
        HarmlessIsOwn(codec, log[i], t.files);
      }
    }
  }

  /** When nobody interferes, the writes of a call are a chain from the disk it found to the disk it
      leaves: stopping anywhere in between leaves a disk that is in the log. */
  lemma CallIsAChain(h0: seq<Disk>, log0: seq<Effect>, d0: Disk, h: seq<Disk>, log: seq<Effect>, d: Disk)
    requires IsLinked(h0, log0, d0, true) && IsLinked(h, log, d, true) && h0 <= h && log0 <= log
    ensures forall i | |log0| <= i < |log| - 1 :: log[i].after == log[i+1].before
    ensures if |log0| < |log| then log[|log0|].before == d0 && log[|log|-1].after == d else d0 == d
  {
    assert h[|log0|] == h0[|log0|];
    forall i | |log0| <= i < |log| - 1 ensures log[i].after == log[i+1].before {
      assert h[i+1] == log[i].after && h[i+1] == log[i+1].before;
    }
  }

  // ---------------------------------------------------------------- plans

  ghost predicate PlanFor(codec: Codec, sc: Scaffold, plan: seq<FilePlan>) {
    && |plan| == |sc.files|
    && forall i | 0 <= i < |plan| ::
         plan[i].path == sc.files[i].path && plan[i].kind == sc.files[i].kind
         && plan[i].checksum == codec.hash(sc.files[i].content) && plan[i].status != Added
  }

  predicate PlannedMissing(plan: seq<FilePlan>, p: Path) {
    exists i | 0 <= i < |plan| :: plan[i].path == p && plan[i].status == Missing
  }

  function MissingFiles(files: seq<ScaffoldFile>, plan: seq<FilePlan>): seq<ScaffoldFile> {
    if files == [] then []
    else (if PlannedMissing(plan, files[0].path) then [files[0]] else []) + MissingFiles(files[1..], plan)
  }

  function CommittedFile(f: FilePlan): FilePlan {
    if f.status == Missing then f.(status := Added) else f
  }

  function CommittedFiles(plan: seq<FilePlan>): seq<FilePlan> {
    seq(|plan|, i requires 0 <= i < |plan| => CommittedFile(plan[i]))
  }

  function CommittedPlan(plan: Plan): Plan {
    plan.(files := CommittedFiles(plan.files), addedCount := plan.missingCount, missingCount := 0)
  }

  function StatusOf(d: Disk, f: ScaffoldFile, managed: set<Path>): Status {
    var status := Inspect(d, f.path, f.content);
    if status == Missing && Lower(f.path) in managed then Conflicted else status
  }

  /** What a planned status says of the disk; everything else is a conflict. */
  ghost predicate StatusMeans(d: Disk, f: ScaffoldFile, managed: bool, status: Status) {
    && (status == Unchanged <==> FileAt(d, f.path) == Some(File(f.content)))
    && (status == Missing <==> Vacant(d, f.path) && !managed)
    && status in {Missing, Unchanged, Conflicted}
  }

  lemma StatusOfMeans(d: Disk, f: ScaffoldFile, managed: set<Path>)
    requires WellFormed(d)
    ensures StatusMeans(d, f, Lower(f.path) in managed, StatusOf(d, f, managed))
  {
    hide Inspect, Vacant, Lower;
    InspectMeans(d, f.path, f.content);
  }

  lemma StatusesMean(d: Disk, files: seq<ScaffoldFile>, plan: seq<FilePlan>, managed: set<Path>, quiet: bool)
    requires |plan| == |files| && (quiet ==> forall i | 0 <= i < |files| :: plan[i].status == StatusOf(d, files[i], managed))
    ensures quiet && WellFormed(d) ==>
      forall i | 0 <= i < |files| :: StatusMeans(d, files[i], Lower(files[i].path) in managed, plan[i].status)
  {
    hide StatusOf, StatusMeans, Lower;
    forall i | 0 <= i < |files| && quiet && WellFormed(d)
      ensures StatusMeans(d, files[i], Lower(files[i].path) in managed, plan[i].status)
    {
      StatusOfMeans(d, files[i], managed);
    }
  }

  function CountStatus(plan: seq<FilePlan>, status: Status): nat {
    if plan == [] then 0 else CountStatus(plan[..|plan|-1], status) + if plan[|plan|-1].status == status then 1 else 0
  }

  lemma NothingCounted()
    ensures forall status :: CountStatus([], status) == 0
  {
  }

  lemma OneMoreCounted(files: seq<FilePlan>, next: FilePlan)
    ensures forall status :: CountStatus(files + [next], status) == CountStatus(files, status) + if next.status == status then 1 else 0
  {
    assert (files + [next])[..|files|] == files;
  }

  ghost predicate CountsAreRight(plan: Plan) {
    && plan.missingCount == CountStatus(plan.files, Missing)
    && plan.addedCount == CountStatus(plan.files, Added)
    && plan.unchangedCount == CountStatus(plan.files, Unchanged)
    && plan.conflictCount == CountStatus(plan.files, Conflicted)
  }

  /** The counters of an applied plan count its own statuses. */
  lemma CommittedCounts(plan: Plan)
    requires CountsAreRight(plan) && plan.addedCount == 0
    ensures CountsAreRight(CommittedPlan(plan))
  {
    CommittedCount(plan.files);
  }

  lemma {:induction false} CommittedCount(plan: seq<FilePlan>)
    ensures CountStatus(CommittedFiles(plan), Missing) == 0
    ensures CountStatus(CommittedFiles(plan), Added) == CountStatus(plan, Missing) + CountStatus(plan, Added)
    ensures CountStatus(CommittedFiles(plan), Unchanged) == CountStatus(plan, Unchanged)
    ensures CountStatus(CommittedFiles(plan), Conflicted) == CountStatus(plan, Conflicted)
  {
    if plan != [] {
      var n := |plan| - 1;
      assert CommittedFiles(plan)[..n] == CommittedFiles(plan[..n]);
      CommittedCount(plan[..n]);
    }
  }

  lemma {:induction false} MissingFilesAre(files: seq<ScaffoldFile>, plan: seq<FilePlan>)
    ensures forall f :: f in MissingFiles(files, plan) <==> f in files && PlannedMissing(plan, f.path)
  {
    if files != [] {
      MissingFilesAre(files[1..], plan);
      assert files == [files[0]] + files[1..];
    }
  }

  lemma {:induction false} MissingFilesDistinct(files: seq<ScaffoldFile>, plan: seq<FilePlan>)
    requires CaseDistinct(files)
    ensures PathsDistinct(MissingFiles(files, plan))
  {
    if files != [] {
      var rest := files[1..];
      assert forall i | 0 <= i < |rest| :: rest[i] == files[i+1];
      MissingFilesDistinct(rest, plan);
      MissingFilesAre(rest, plan);
      var tail := MissingFiles(rest, plan);
      forall j | 0 <= j < |tail| ensures tail[j].path != files[0].path {
        assert tail[j] in rest;
        var i :| 0 <= i < |rest| && rest[i] == tail[j];
        assert Lower(files[0].path) != Lower(files[i+1].path);
      }
      var m := MissingFiles(files, plan);
      assert m == if PlannedMissing(plan, files[0].path) then [files[0]] + tail else tail;
      if PlannedMissing(plan, files[0].path) {
        forall i, j | 0 <= i < j < |m| ensures m[i].path != m[j].path {
          assert m[j] == tail[j-1];
          assert i > 0 ==> m[i] == tail[i-1];
        }
      }
    }
  }

  /** The manifest, if there is one, is compatible, and no file planned as missing has a record in it. */
  ghost predicate Unmanaged(codec: Codec, sc: Scaffold, plan: seq<FilePlan>, manifest: Option<string>) {
    manifest.Some? ==>
      var m := codec.parseManifest(manifest.value);
      && m.Some? && Compatible(codec, sc, m.value)
      && forall i | 0 <= i < |plan| && plan[i].status == Missing :: Lower(plan[i].path) !in LowerPaths(m.value.files)
  }

  /** The disk is one on which the plan can be applied as a transaction. */
  ghost predicate Ready(codec: Codec, sc: Scaffold, plan: seq<FilePlan>, d: Disk) {
    && WellFormed(d) && JOURNAL !in d
    && ManifestAt(d).Ok? && Unmanaged(codec, sc, plan, ManifestAt(d).value)
    && (forall f | f in sc.files && PlannedMissing(plan, f.path) :: Inspect(d, f.path, f.content) == Missing)
  }

  ghost function TransactionFor(codec: Codec, sc: Scaffold, plan: seq<FilePlan>, d: Disk, now: string): Transaction
    requires ManifestAt(d).Ok? && Unmanaged(codec, sc, plan, ManifestAt(d).value)
  {
    Transaction(d, MissingFiles(sc.files, plan),
                AppliedManifest(codec, sc, CommittedFiles(plan), ManifestAt(d).value, now))
  }

  lemma CommittedPlanDistinct(codec: Codec, sc: Scaffold, plan: seq<FilePlan>)
    requires GoodScaffold(codec, sc) && PlanFor(codec, sc, plan)
    ensures PlanCaseDistinct(CommittedFiles(plan))
    ensures codec.Lawful() ==> PlanChecks(codec, CommittedFiles(plan))
  {
    var c := CommittedFiles(plan);
    forall i, j | 0 <= i < j < |c| ensures Lower(c[i].path) != Lower(c[j].path) {
      assert Lower(sc.files[i].path) != Lower(sc.files[j].path);
    }
  }

  /** A transaction that creates a file always publishes a manifest different from the one it found. */
  lemma ManifestChanges(codec: Codec, sc: Scaffold, plan: seq<FilePlan>, d: Disk, now: string)
    requires codec.Lawful() && GoodScaffold(codec, sc) && PlanFor(codec, sc, plan)
    requires ManifestAt(d).Ok? && Unmanaged(codec, sc, plan, ManifestAt(d).value)
    requires MissingFiles(sc.files, plan) != []
    ensures FileAt(d, MANIFEST) != Some(File(TransactionFor(codec, sc, plan, d, now).manifest))
  {
    var existing := ManifestAt(d).value;
    if existing.Some? {
      MissingFilesAre(sc.files, plan);
      var f := MissingFiles(sc.files, plan)[0];
      assert f in MissingFiles(sc.files, plan);
      var i :| 0 <= i < |plan| && plan[i].path == f.path && plan[i].status == Missing;
      hide MissingFiles, GoodScaffold, Compatible, PlanFor, Lower, LowerPaths, Records, AppliedManifest;
      AddsARecord(codec.parseManifest(existing.value).value, CommittedFiles(plan), i);
      MergeChanges(codec, sc, CommittedFiles(plan), existing.value, now);
    }
  }

  lemma MergeChanges(codec: Codec, sc: Scaffold, plan: seq<FilePlan>, text: string, now: string)
    requires codec.Lawful() && codec.parseManifest(text).Some?
    requires Records(plan, NewlyAdded(codec.parseManifest(text).value.files)) != []
    ensures AppliedManifest(codec, sc, plan, Some(text), now) != text
  {
    var m := codec.parseManifest(text).value;
    var added := Records(plan, NewlyAdded(m.files));
    hide Records, NewlyAdded;
    var m' := m.(files := m.files + added);
    assert codec.parseManifest(codec.printManifest(m')) == Some(m');
    assert |m'.files| > |m.files|;
  }

  lemma AddsARecord(m: Manifest, c: seq<FilePlan>, i: nat)
    requires i < |c| && c[i].status == Added && Lower(c[i].path) !in LowerPaths(m.files)
    ensures Records(c, NewlyAdded(m.files)) != []
  {
    RecordsAre(c, NewlyAdded(m.files));
    assert NewlyAdded(m.files)(c[i]);
    assert ManifestRecord(c[i]) in Records(c, NewlyAdded(m.files));
  }

  lemma TransactionIsSound(codec: Codec, sc: Scaffold, plan: seq<FilePlan>, d: Disk, now: string)
    requires codec.Lawful() && GoodScaffold(codec, sc) && PlanFor(codec, sc, plan) && Ready(codec, sc, plan, d)
    ensures Sound(codec, TransactionFor(codec, sc, plan, d, now))
  {
    var t := TransactionFor(codec, sc, plan, d, now);
    MissingFilesAre(sc.files, plan);
    MissingFilesDistinct(sc.files, plan);
    if t.files != [] { ManifestChanges(codec, sc, plan, d, now); }
    forall i | 0 <= i < |t.files| ensures GoodTarget(codec, d, t.files[i].path) {
      var f := t.files[i];
      assert f in sc.files;
      NoConflictMeansClear(d, f.path, 1);
    }
    forall i, j | 0 <= i < |t.files| && 0 <= j < |t.files| ensures !Below(t.files[i].path, t.files[j].path) {
      assert t.files[i] in sc.files && t.files[j] in sc.files;
    }
  }

  // ---------------------------------------------------------------- the program

  datatype Prepared = Prepared(missing: seq<ScaffoldFile>, manifest: string, expected: Option<string>)

  /** The manifest that was read can be merged into. */
  ghost predicate CanMerge(codec: Codec, sc: Scaffold, manifest: Result<Option<string>, Error>) {
    && manifest.Ok?
    && (manifest.value.Some? ==>
          codec.parseManifest(manifest.value.value).Some? && Compatible(codec, sc, codec.parseManifest(manifest.value.value).value))
  }

  ghost predicate MissingStays(d: Disk, files: seq<ScaffoldFile>) {
    forall i | 0 <= i < |files| :: Inspect(d, files[i].path, files[i].content) == Missing
  }

  class Repository {
    const codec: Codec
    const quiet: bool
    const reliable: bool
    const journalKept: bool
    var disk: Disk
    ghost var effects: seq<Effect>
    ghost var history: seq<Disk>

    constructor (codec: Codec, disk: Disk, quiet: bool, reliable: bool, journalKept: bool)
      requires quiet ==> journalKept
      ensures this.codec == codec && this.quiet == quiet && this.reliable == reliable && this.journalKept == journalKept
      ensures this.disk == disk && effects == [] && Linked() && history == [disk]
    {
      this.codec, this.disk, this.quiet, this.reliable, this.journalKept := codec, disk, quiet, reliable, journalKept;
      effects, history := [], [disk];
    }

    ghost predicate Linked()
      reads this
    {
      IsLinked(history, effects, disk, quiet) && (quiet ==> journalKept) && AllOrderly(codec, effects)
    }

    /** Whatever other programs do to the disk in the meantime. */
    method Interfere()
      requires Linked()
      modifies this`disk, this`history
      ensures Linked() && old(history) <= history
      ensures quiet ==> disk == old(disk)
      ensures journalKept ==> SameJournal(old(disk), disk)
    {
      var d: Disk := *;
      if !quiet && (journalKept ==> d == if JOURNAL in disk then d[JOURNAL := disk[JOURNAL]] else d - {JOURNAL}) {
        disk := d;
        history := history + [d];
      }
    }

    /** A write of this program. */
    method Put(d: Disk)
      requires Linked() && IsOrderly(codec, effects, Effect(disk, d))
      modifies this
      ensures Linked() && old(history) <= history
      ensures disk == d && effects == old(effects) + [Effect(old(disk), d)]
    {
      OrderlyNext(codec, effects, Effect(disk, d));
      hide IsOrderly, AllOrderly;
      effects, history := effects + [Effect(disk, d)], history + [d];
      disk := d;
    }

    method SystemCallFails() returns (fails: bool)
      ensures reliable ==> !fails
    {
      fails := *;
      fails := fails && !reliable;
    }

    // ------------------------------------------------ single writes

    method WriteExclusively(path: Path, text: string) returns (r: Outcome<WriteError>)
      requires Linked()
      modifies this
      ensures Linked() && old(history) <= history
      ensures r.Fail? ==> effects == old(effects) && (quiet ==> disk == old(disk))
      ensures r.Pass? ==> |effects| == |old(effects)| + 1 && old(effects) < effects
      ensures r.Pass? ==> var e := effects[|old(effects)|];
        path !in e.before && HasParent(e.before, path) && e.after == e.before[path := File(text)] && disk == e.after
        && (quiet ==> e.before == old(disk))
      ensures quiet && reliable && path !in old(disk) && HasParent(old(disk), path) ==> r.Pass?
    {
      hide IsLinked, AllOrderly;
      Interfere();
      if path in disk && disk[path].Link? { return Fail(TargetInvalid); }
      var fails := SystemCallFails();
      if fails { return Fail(WriteFailed); }
      Interfere();
      if !HasParent(disk, path) { return Fail(WriteFailed); }
      if path in disk { return Fail(TargetAlreadyExists); }
      Put(disk[path := File(text)]);
      return Pass;
    }

    method WriteAtomically(path: Path, text: string) returns (r: Outcome<WriteError>)
      requires Linked()
      modifies this
      ensures Linked() && old(history) <= history
      ensures r.Fail? ==> effects == old(effects) && (quiet ==> disk == old(disk))
      ensures r.Pass? ==> |effects| == |old(effects)| + 1 && old(effects) < effects
      ensures r.Pass? ==> var e := effects[|old(effects)|];
        e.after == e.before[path := File(text)] && disk == e.after
        && HasParent(e.before, path) && (path in e.before ==> !e.before[path].Directory?)
        && (quiet ==> e.before == old(disk))
      ensures quiet && reliable && (path in old(disk) ==> old(disk)[path].File?) && HasParent(old(disk), path) ==> r.Pass?
    {
      hide IsLinked, AllOrderly;
      Interfere();
      if path in disk && disk[path].Link? { return Fail(TargetInvalid); }
      var fails := SystemCallFails();
      if fails { return Fail(WriteFailed); }
      Interfere();
      if !HasParent(disk, path) || (path in disk && disk[path].Directory?) { return Fail(WriteFailed); }
      Put(disk[path := File(text)]);
      return Pass;
    }

    method RemoveJournal() returns (r: Outcome<Error>)
      requires Linked()
      modifies this
      ensures Linked() && old(history) <= history
      ensures r.Fail? ==> effects == old(effects) && (quiet ==> disk == old(disk))
      ensures r.Pass? ==> |effects| == |old(effects)| + 1 && old(effects) < effects
      ensures r.Pass? ==> var e := effects[|old(effects)|];
        e.after == e.before - {JOURNAL} && disk == e.after && (quiet ==> e.before == old(disk))
        && JOURNAL in e.before
      ensures quiet && reliable && JOURNAL in old(disk) && old(disk)[JOURNAL].File? ==> r.Pass?
    {
      hide IsLinked, AllOrderly;
      Interfere();
      var fails := SystemCallFails();
      if fails || JOURNAL !in disk || disk[JOURNAL].Directory? { return Fail(ScaffoldFailed); }
      Put(disk - {JOURNAL});
      return Pass;
    }

    method MakeDirectory(path: Path) returns (r: Outcome<Error>)
      requires Linked()
      modifies this
      ensures Linked() && old(history) <= history
      ensures r.Fail? ==> effects == old(effects) && (quiet ==> disk == old(disk))
      ensures r.Pass? ==> |effects| == |old(effects)| + 1 && old(effects) < effects
      ensures r.Pass? ==> var e := effects[|old(effects)|];
        OnlyDirectoriesAdded(e.before, e.after) && disk == e.after && e.after == e.before[path := Directory]
        && (quiet ==> e.before == old(disk)) && Makes(e, path)
      ensures quiet && reliable && path !in old(disk) && HasParent(old(disk), path) ==> r.Pass?
    {
      hide IsLinked, AllOrderly;
      Interfere();
      var fails := SystemCallFails();
      if fails || path in disk || !HasParent(disk, path) { return Fail(ScaffoldFailed); }
      DirectoryAdded(disk, path);
      Put(disk[path := Directory]);
      return Pass;
    }

    /** Creates the missing directories above `path` and adds them to `created`. */
    method CreateParents(path: Path, created: seq<Path>) returns (r: Outcome<Error>, dirs: seq<Path>)
      requires Linked() && AllMade(effects, created)
      modifies this
      ensures Linked() && old(history) <= history
      ensures old(effects) <= effects
      ensures DirectoriesSince(effects, |old(effects)|)
      ensures quiet ==> OnlyDirectoriesAdded(old(disk), disk) && DirectoriesFrom(old(disk), effects, |old(effects)|)
      ensures created <= dirs && AllMade(effects, dirs)
      ensures forall i | |created| <= i < |dirs| :: dirs[i] != [] && Below(dirs[i], path)
      ensures quiet ==> AllReported(old(disk), disk, dirs)
      ensures quiet ==> NewAbove(old(disk), disk, path)
      ensures quiet && reliable && ClearParents(old(disk), path) ==> r.Pass? && HasParent(disk, path)
    {
      hide IsLinked;
      dirs := created;
      r := Pass;
      DirectoriesAddedNone(disk);
      NothingNew(disk, path);
      assert AllReported(disk, disk, dirs);
      hide OnlyDirectoriesAdded, Below, NewAbove, ClearParents, AllMade, WasMade, AllReported;
      var k := 1;
      while k < |path|
        invariant Linked() && old(history) <= history
        invariant k == 1 || k <= |path|
        invariant old(effects) <= effects
        invariant DirectoriesSince(effects, |old(effects)|)
        invariant quiet ==> OnlyDirectoriesAdded(old(disk), disk) && DirectoriesFrom(old(disk), effects, |old(effects)|)
        invariant created <= dirs && AllMade(effects, dirs)
        invariant forall i | |created| <= i < |dirs| :: dirs[i] != [] && Below(dirs[i], path)
        invariant quiet ==> AllReported(old(disk), disk, dirs)
        invariant quiet ==> NewAbove(old(disk), disk, path)
        invariant quiet && reliable && ClearParents(old(disk), path) ==> IsDirectory(disk, path[..k-1])
      {
        var made: bool;
        label before:
        NextParent(old(disk), disk, path, k);
        r, made := CreateParent(path[..k], old(disk));
        NewAboveOneMore(old(disk), old@before(disk), disk, path, k);
        StillMade(old@before(effects), effects, dirs);
        if quiet { OneMoreReported(old(disk), old@before(disk), disk, dirs, path[..k], made); }
        if r.Fail? { return r, dirs; }
        if made {
          PrefixIsBelow(path, k);
          OneMoreMade(effects, dirs, path[..k]);
          dirs := dirs + [path[..k]];
        }
        k := k + 1;
      }
      return Pass, dirs;
    }

    method CreateParent(current: Path, ghost start: Disk) returns (r: Outcome<Error>, made: bool)
      requires quiet ==> OnlyDirectoriesAdded(start, disk)
      requires Linked()
      modifies this
      ensures Linked() && old(history) <= history
      ensures old(effects) <= effects
      ensures DirectoriesSince(effects, |old(effects)|)
      ensures quiet ==> OnlyDirectoriesAdded(start, disk) && DirectoriesFrom(start, effects, |old(effects)|)
      ensures made ==> WasMade(effects, current) && r.Pass?
      ensures quiet && disk != old(disk) ==> made
      ensures quiet ==> disk == old(disk) || disk == old(disk)[current := Directory]
      ensures quiet && reliable && HasParent(old(disk), current) && FileAt(old(disk), current) == None ==> r.Pass? && IsDirectory(disk, current)
    {
      hide IsLinked;
      hide OnlyDirectoriesAdded;
      Interfere();
      if current in disk {
        return if disk[current].Directory? then Pass else Fail(Conflict), false;
      }
      r := MakeDirectory(current);
      made := r.Pass?;
      if made { assert Makes(effects[|effects|-1], current); }
      if quiet && made { DirectoriesAddedTwice(start, old(disk), disk); }
    }

    /** Makes sure `.ssealed` is a directory. */
    method EnsureManifestDirectory() returns (r: Outcome<Error>)
      requires Linked()
      modifies this
      ensures Linked() && old(history) <= history
      ensures old(effects) <= effects
      ensures DirectoriesSince(effects, |old(effects)|)
      ensures quiet ==> OnlyDirectoriesAdded(old(disk), disk) && DirectoriesFrom(old(disk), effects, |old(effects)|)
      ensures quiet && r.Pass? ==> SSEALED in disk && disk[SSEALED] == Directory
      ensures quiet && SSEALED in old(disk) ==> effects == old(effects) && disk == old(disk)
      ensures quiet ==> disk == old(disk) || disk == old(disk)[SSEALED := Directory]
      ensures quiet && reliable && FileAt(old(disk), SSEALED) == None ==> r.Pass?
    {
      hide IsLinked;
      DirectoriesAddedNone(disk);
      hide OnlyDirectoriesAdded;
      Interfere();
      var fails := SystemCallFails();
      if fails { return Fail(ScaffoldFailed); }
      if SSEALED in disk {
        return if disk[SSEALED].Directory? then Pass else Fail(Conflict);
      }
      r := MakeDirectory(SSEALED);
    }

    // ------------------------------------------------ the manifest

    method ReadManifest() returns (r: Result<Option<string>, Error>)
      requires Linked()
      modifies this`disk, this`history
      ensures Linked() && old(history) <= history
      ensures quiet ==> disk == old(disk)
      ensures journalKept ==> SameJournal(old(disk), disk)
      ensures r == ManifestAt(disk) || r == Err(ScaffoldFailed)
      ensures reliable ==> r == ManifestAt(disk)
    {
      hide IsLinked;
      Interfere();
      var fails := SystemCallFails();
      if fails { return Err(ScaffoldFailed); }
      return ManifestAt(disk);
    }

    /** Publishes `content` if the manifest is still the expected one. Only an expected manifest is ever
        replaced: when none was expected, one that appeared meanwhile stays as it is. */
    method WriteManifest(content: string, expected: Option<string>) returns (r: Outcome<Error>)
      requires Linked()
      modifies this
      ensures Linked() && old(history) <= history
      ensures old(effects) <= effects
      ensures HarmlessSince(codec, effects, |old(effects)|, [])
      ensures expected.None? ==> KeepsManifestSince(effects, |old(effects)|)
      ensures quiet && SSEALED in old(disk) ==>
        && (r.Pass? ==> disk == old(disk)[MANIFEST := File(content)] && Grown(old(disk), disk))
        && (r.Fail? ==> disk == old(disk))
        && (forall i | |old(effects)| <= i < |effects| :: effects[i] == Effect(old(disk), disk))
      ensures quiet && reliable && IsDirectory(old(disk), SSEALED) && ManifestAt(old(disk)) == Ok(expected) ==> r.Pass?
    {
      hide IsLinked;
      hide Harmless, Grown, OnlyDirectoriesAdded, KeepsManifest;
      var ensured := EnsureManifestDirectory();
      DirectoriesSinceAreHarmless(codec, effects, |old(effects)|);
      if ensured.Fail? { return ensured; }
      r := CheckManifest(expected);
      if r.Fail? { return; }
      if expected == Some(content) {
        assert quiet ==> disk == disk[MANIFEST := File(content)];
        GrownSelf(disk);
        return Pass;
      }
      ManifestCanBePublished(disk, expected);
      r := PublishManifest(content, expected.None?);
    }

    /** Fails unless the manifest is the expected one. */
    method CheckManifest(expected: Option<string>) returns (r: Outcome<Error>)
      requires Linked()
      modifies this`disk, this`history
      ensures Linked() && old(history) <= history
      ensures quiet ==> disk == old(disk)
      ensures quiet && r.Pass? ==> (MANIFEST in disk ==> disk[MANIFEST].File?)
      ensures quiet && r.Pass? && expected.Some? ==> MANIFEST in disk && disk[MANIFEST] == File(expected.value)
      ensures quiet && reliable && ManifestAt(old(disk)) == Ok(expected) ==> r.Pass?
    {
      hide IsLinked;
      Interfere();
      var fails := SystemCallFails();
      if fails { return Fail(ScaffoldFailed); }
      if MANIFEST in disk && !disk[MANIFEST].File? { return Fail(ManifestConflict); }
      var current := ReadManifest();
      if current.Err? { return Fail(current.error); }
      if current.value != expected { return Fail(ManifestConflict); }
      return Pass;
    }

    method PublishManifest(content: string, exclusively: bool) returns (r: Outcome<Error>)
      requires Linked()
      modifies this
      ensures Linked() && old(history) <= history
      ensures r.Fail? ==> effects == old(effects) && (quiet ==> disk == old(disk))
      ensures r.Pass? ==> |effects| == |old(effects)| + 1 && old(effects) < effects
      ensures r.Pass? ==> var e := effects[|old(effects)|];
        Harmless(codec, e, []) && (exclusively ==> KeepsManifest(e)) && disk == e.after
      ensures r.Pass? && quiet ==> disk == old(disk)[MANIFEST := File(content)] && effects[|old(effects)|].before == old(disk)
      ensures r.Pass? && quiet && (MANIFEST in old(disk) ==> old(disk)[MANIFEST].File?) ==> Grown(old(disk), disk)
      ensures quiet && reliable && HasParent(old(disk), MANIFEST) && (if exclusively then MANIFEST !in old(disk) else MANIFEST in old(disk) ==> old(disk)[MANIFEST].File?) ==> r.Pass?
    {
      hide IsLinked;
      var written: Outcome<WriteError>;
      if exclusively {
        written := WriteExclusively(MANIFEST, content);
      } else {
        written := WriteAtomically(MANIFEST, content);
      }
      match written {
        case Pass =>
          ghost var e := effects[|effects|-1];
          if MANIFEST in e.before ==> e.before[MANIFEST].File? { EntryAdded(e.before, MANIFEST, File(content)); }
          return Pass;
        case Fail(TargetAlreadyExists) => return Fail(ManifestConflict);
        case Fail(_) => return Fail(ScaffoldFailed);
      }
    }

    // ------------------------------------------------ removing what was created

    /** Checks one journal entry and removes the file if it still has the recorded checksum. */
    method RemoveUnmodified(file: JournalFile) returns (r: Outcome<Error>)
      requires Linked()
      modifies this
      ensures Linked() && old(history) <= history
      ensures effects == old(effects) || (|effects| == |old(effects)| + 1 && old(effects) < effects)
      ensures effects != old(effects) ==> var e := effects[|old(effects)|];
        Matches(codec, e.before, file) && e.after == e.before - {file.path} && disk == e.after && (quiet ==> e.before == old(disk)) && r.Pass?
      ensures effects != old(effects) ==> codec.validPath(file.path) && WasClear(history, |old(history)| - 1, file.path)
      ensures effects == old(effects) && quiet ==> disk == old(disk)
      ensures quiet && r.Pass? ==> !Matches(codec, disk, file)
      ensures quiet && reliable && codec.validPath(file.path) && !ParentConflict(old(disk), file.path, 1) ==> r.Pass?
    {
      HistoryBegan(history, effects, disk, quiet);
      hide IsLinked, AllOrderly;
      if !codec.validPath(file.path) { return Fail(ScaffoldFailed); }
      Interfere();
      if ParentConflict(disk, file.path, 1) { return Fail(Conflict); }
      var fails := SystemCallFails();
      if fails { return Fail(ScaffoldFailed); }
      ghost var seen, found := history, disk;
      Interfere();
      SeenNow(seen, effects, found, quiet, |old(history)| - 1, history);
      hide WasClear, WasMissing, ParentConflict, Inspect;
      if file.path in disk && disk[file.path].File? && codec.hash(disk[file.path].text) == file.checksum {
        Put(disk - {file.path});
      }
      return Pass;
    }

    /** Removes the created files that are still unmodified, last one first. A failure does not stop it. */
    method RemoveCreated(created: seq<JournalFile>, ghost t: Transaction, ghost active: bool)
      returns (r: Outcome<Error>)
      requires active ==> quiet && UndoReady(codec, t, disk, created)
      requires Linked()
      modifies this
      ensures Linked() && old(history) <= history
      ensures old(effects) <= effects
      ensures HarmlessSince(codec, effects, |old(effects)|, created)
      ensures active ==> MidwaySince(codec, t, effects, |old(effects)|) && UndoReady(codec, t, disk, created)
      ensures active && r.Pass? ==> NoneCreated(t, disk)
      ensures active && reliable ==> r.Pass?
    {
      hide IsLinked;
      r := Pass;
      var i := |created|;
      while i > 0
        invariant Linked() && old(history) <= history
        invariant 0 <= i <= |created|
        invariant old(effects) <= effects
        invariant HarmlessSince(codec, effects, |old(effects)|, created)
        invariant active ==> MidwaySince(codec, t, effects, |old(effects)|) && UndoReady(codec, t, disk, created)
        invariant active && r.Pass? ==> GoneFrom(disk, created, i)
        invariant active && reliable ==> r.Pass?
      {
        i := i - 1;
        var removed := UndoFile(created, i, t, active);
        if removed.Fail? { r := removed; }
      }
      if active && r.Pass? { AllGone(codec, t, disk, created); }
    }

    method UndoFile(created: seq<JournalFile>, i: nat, ghost t: Transaction, ghost active: bool)
      returns (r: Outcome<Error>)
      requires i < |created|
      requires active ==> quiet && UndoReady(codec, t, disk, created)
      requires Linked()
      modifies this
      ensures Linked() && old(history) <= history
      ensures old(effects) <= effects
      ensures HarmlessSince(codec, effects, |old(effects)|, created)
      ensures active ==> MidwaySince(codec, t, effects, |old(effects)|) && UndoReady(codec, t, disk, created)
      ensures active && GoneFrom(old(disk), created, i + 1) && r.Pass? ==> GoneFrom(disk, created, i)
      ensures active && GoneFrom(old(disk), created, i + 1) ==> GoneFrom(disk, created, i + 1)
      ensures active && reliable ==> r.Pass?
    {
      hide IsLinked;
      hide Midway, Sound, Uncommitted, Harmless;
      if active { UndoableEntry(codec, t, disk, created, i); }
      r := RemoveUnmodified(created[i]);
      if effects != old(effects) {
        ghost var e := effects[|effects|-1];
        RemovalIsHarmless(codec, e, created, i);
        if active { UndoneEntry(codec, t, old(disk), created, i); }
      } else if active && r.Pass? {
        UnmatchedIsGone(codec, t, disk, created, i);
      }
    }

    /** Removes the created directories that are empty, last one first. */
    method RemoveCreatedDirectories(dirs: seq<Path>, ghost t: Transaction, ghost active: bool)
      returns (r: Outcome<Error>)
      requires active ==> quiet && codec.Lawful() && Sound(codec, t) && Uncommitted(codec, t, disk)
      requires active ==> forall i | 0 <= i < |dirs| :: AboveTarget(t, dirs[i])
      requires Linked() && AllMade(effects, dirs)
      modifies this
      ensures Linked() && old(history) <= history
      ensures old(effects) <= effects
      ensures HarmlessSince(codec, effects, |old(effects)|, [])
      ensures active ==> MidwaySince(codec, t, effects, |old(effects)|) && Uncommitted(codec, t, disk)
      ensures active && NoneCreated(t, old(disk)) ==> NoneCreated(t, disk)
      ensures active && reliable ==> r.Pass?
    {
      hide IsLinked;
      r := Pass;
      var i := |dirs|;
      while i > 0
        invariant Linked() && old(history) <= history && AllMade(effects, dirs)
        invariant 0 <= i <= |dirs|
        invariant old(effects) <= effects
        invariant HarmlessSince(codec, effects, |old(effects)|, [])
        invariant active ==> MidwaySince(codec, t, effects, |old(effects)|) && Uncommitted(codec, t, disk)
        invariant active && NoneCreated(t, old(disk)) ==> NoneCreated(t, disk)
        invariant active && reliable ==> r.Pass?
      {
        i := i - 1;
        label before:
        var removed, stop := UndoDirectory(dirs[i], t, active);
        StillMade(old@before(effects), effects, dirs);
        if removed.Fail? { r := removed; }
        if stop { return; }
      }
    }

    /** `stop` says that the failure ends the rollback at once. */
    method UndoDirectory(dir: Path, ghost t: Transaction, ghost active: bool)
      returns (r: Outcome<Error>, stop: bool)
      requires active ==> quiet && codec.Lawful() && Sound(codec, t) && Uncommitted(codec, t, disk) && AboveTarget(t, dir)
      requires Linked() && WasMade(effects, dir)
      modifies this
      ensures Linked() && old(history) <= history
      ensures old(effects) <= effects
      ensures HarmlessSince(codec, effects, |old(effects)|, [])
      ensures active ==> MidwaySince(codec, t, effects, |old(effects)|) && Uncommitted(codec, t, disk)
      ensures active && NoneCreated(t, old(disk)) ==> NoneCreated(t, disk)
      ensures active && reliable ==> r.Pass?
      ensures stop <==> r == Fail(Conflict)
    {
      hide IsLinked, AllOrderly, WasMade;
      if active { DirectoryAboveTarget(codec, t, disk, dir); }
      Interfere();
      if ParentConflict(disk, dir, 1) { return Fail(Conflict), true; }
      if dir !in disk { return Pass, false; }
      if !disk[dir].Directory? { return Fail(Conflict), true; }
      if exists p | p in disk :: Below(dir, p) { return Pass, false; }
      var fails := SystemCallFails();
      if fails { return Fail(ScaffoldFailed), false; }
      var d := disk - {dir};
      if active { EmptyDirectoryRemoved(codec, t, disk, dir); }
      Put(d);
      return Pass, false;
    }

    /** Undoes a failed apply. `t` is the transaction when nobody interferes. */
    method Rollback(created: seq<JournalFile>, dirs: seq<Path>, ghost t: Transaction, ghost active: bool)
      returns (r: Outcome<Error>)
      requires active ==> quiet && UndoReady(codec, t, disk, created)
      requires active ==> AllAboveTargets(t, dirs)
      requires Linked() && AllMade(effects, dirs)
      modifies this
      ensures Linked() && old(history) <= history
      ensures old(effects) <= effects
      ensures HarmlessSince(codec, effects, |old(effects)|, created)
      ensures active ==> MidwaySince(codec, t, effects, |old(effects)|) && Uncommitted(codec, t, disk)
      ensures active && r.Pass? ==> NoneCreated(t, disk)
      ensures active && reliable ==> r.Pass?
    {
      hide IsLinked;
      r := RemoveCreated(created, t, active);
      StillMade(old(effects), effects, dirs);
      label directories:
      var removed := RemoveCreatedDirectories(dirs, t, active);
      if removed.Fail? { r := removed; }
      forall i | |old@directories(effects)| <= i < |effects| ensures Harmless(codec, effects[i], created) {
        HarmlessWithMore(codec, effects[i], [], created);
      }
    }

    /** Finishes or undoes what an interrupted apply left behind. `listed` are the entries of the journal
        that was read. */
    method Recover() returns (r: Outcome<Error>, ghost listed: seq<JournalFile>)
      requires Linked()
      modifies this
      ensures Linked() && old(history) <= history
      ensures old(effects) <= effects
      ensures HarmlessSince(codec, effects, |old(effects)|, listed)
      ensures effects != old(effects) ==> ReadSince(codec, history, |old(history)| - 1, listed)
      ensures journalKept && effects != old(effects) ==> Lists(codec, old(disk), listed)
      ensures journalKept ==> forall t: Transaction | JournalIs(codec, old(disk), t) :: OwnContentSince(effects, |old(effects)|, t.files)
      ensures quiet && JournalAt(codec, old(disk)).Some? && effects != old(effects) ==> listed == JournalAt(codec, old(disk)).value.files
      ensures quiet && SaneJournal(codec, old(disk)) ==> RecoversSince(codec, effects, |old(effects)|, old(disk), disk)
      ensures quiet && SaneJournal(codec, old(disk)) && r.Pass? ==> disk == RecoverDisk(codec, old(disk))
      ensures quiet && reliable && Recoverable(codec, old(disk)) && SaneJournal(codec, old(disk)) ==> r.Pass?
      ensures quiet && r.Pass? && WellFormed(old(disk)) ==> JOURNAL !in disk
    {
      hide IsLinked;
      listed := [];
      LinkedLast(history, effects, disk, quiet);
      var read := ReadJournal();
      if read.Err? { return Fail(read.error), listed; }
      if read.value.None? {
        assert JOURNAL[..|JOURNAL|-1] == SSEALED;
        assert WellFormed(disk) && JOURNAL in disk ==> HasParent(disk, JOURNAL);
        return Pass, listed;
      }
      var journal := read.value.value;
      listed := journal.files;
      ghost var seen := history;
      LinkedLast(seen, effects, disk, quiet);
      assert Lists(codec, seen[|seen|-1], listed);
      Interfere();
      var committed := ManifestCommitted(codec, disk, journal);
      ghost var sane := quiet && SaneJournal(codec, old(disk));
      hide RecoverDisk, RecoveryEffect, Recoverable, SaneJournal;
      r := FinishRecovery(journal, committed, sane);
      WasRead(codec, seen, history, |old(history)| - 1, listed);
      hide Lists, JournalIs, OwnContentSince, HarmlessSince;
      if journalKept {
        forall t: Transaction | JournalIs(codec, old(disk), t) ensures OwnContentSince(effects, |old(effects)|, t.files) {
          RecoveredIsOwn(codec, effects, |old(effects)|, listed, old(disk), t);
        }
      }
    }

    /** Undoes what the journal lists unless it was committed, then removes the journal. */
    method FinishRecovery(journal: Journal, committed: bool, ghost sane: bool) returns (r: Outcome<Error>)
      requires sane ==> quiet && JournalAt(codec, disk) == Some(journal) && SaneJournal(codec, disk)
      requires sane ==> (committed <==> ManifestCommitted(codec, disk, journal))
      requires Linked()
      modifies this
      ensures Linked() && old(history) <= history
      ensures old(effects) <= effects
      ensures HarmlessSince(codec, effects, |old(effects)|, journal.files)
      ensures sane ==> RecoversSince(codec, effects, |old(effects)|, old(disk), disk)
      ensures sane && r.Pass? ==> disk == RecoverDisk(codec, old(disk))
      ensures sane && reliable && Recoverable(codec, old(disk)) ==> r.Pass?
      ensures quiet && r.Pass? ==> JOURNAL !in disk
    {
      hide IsLinked;
      hide RecoverDisk, RecoveryEffect, Recoverable, SaneJournal;
      r := Pass;
      if !committed {
        r := RemoveListed(journal, sane);
        if r.Fail? { return; }
      }
      label last:
      r := RemoveJournal();
      if sane && r.Pass? { JournalRemovedLast(codec, old@last(disk), journal); }
    }

    /** The journal on the disk, if there is one. */
    method ReadJournal() returns (r: Result<Option<Journal>, Error>)
      requires Linked()
      modifies this`disk, this`history
      ensures Linked() && old(history) <= history
      ensures quiet ==> disk == old(disk)
      ensures journalKept ==> SameJournal(old(disk), disk)
      ensures r.Ok? && r.value.Some? ==> JournalEntry(codec, disk) == r.value
      ensures quiet && r.Ok? ==> JournalAt(codec, disk) == r.value
      ensures quiet && r.Ok? && r.value.None? ==> SSEALED !in disk || JOURNAL !in disk
      ensures quiet && reliable && Recoverable(codec, old(disk)) ==> r.Ok?
    {
      hide IsLinked;
      Interfere();
      if SSEALED !in disk { return Ok(None); }
      if !disk[SSEALED].Directory? { return Err(Conflict); }
      var fails := SystemCallFails();
      if fails { return Err(ScaffoldFailed); }
      Interfere();
      if JOURNAL !in disk { return Ok(None); }
      if !disk[JOURNAL].File? { return Err(ScaffoldFailed); }
      var parsed := codec.parseJournal(disk[JOURNAL].text);
      if parsed.None? || parsed.value.version != JOURNAL_VERSION { return Err(ScaffoldFailed); }
      return Ok(parsed);
    }

    /** Removes every file the journal lists unmodified, last one first; the first failure ends it. */
    method RemoveListed(journal: Journal, ghost sane: bool) returns (r: Outcome<Error>)
      requires sane ==> quiet && Undoing(codec, disk, journal)
      requires Linked()
      modifies this
      ensures Linked() && old(history) <= history
      ensures old(effects) <= effects
      ensures HarmlessSince(codec, effects, |old(effects)|, journal.files)
      ensures sane ==> Undoing(codec, disk, journal) && RecoversSince(codec, effects, |old(effects)|, old(disk), disk)
      ensures sane && r.Pass? ==> forall k | 0 <= k < |journal.files| :: !Matches(codec, disk, journal.files[k])
      ensures sane && reliable && Recoverable(codec, old(disk)) ==> r.Pass?
    {
      hide IsLinked;
      hide RecoverDisk, RecoveryEffect, JournalAt, ManifestCommitted;
      var i := |journal.files|;
      while i > 0
        invariant Linked() && old(history) <= history
        invariant 0 <= i <= |journal.files|
        invariant old(effects) <= effects
        invariant HarmlessSince(codec, effects, |old(effects)|, journal.files)
        invariant sane ==> Undoing(codec, disk, journal) && RecoversSince(codec, effects, |old(effects)|, old(disk), disk)
        invariant sane ==> forall k | i <= k < |journal.files| :: !Matches(codec, disk, journal.files[k])
        invariant sane && Recoverable(codec, old(disk)) ==> Recoverable(codec, disk)
      {
        i := i - 1;
        var removed := RemoveListedEntry(journal, i, sane);
        if removed.Fail? { return removed; }
      }
      return Pass;
    }

    method RemoveListedEntry(journal: Journal, i: nat, ghost sane: bool) returns (r: Outcome<Error>)
      requires i < |journal.files|
      requires sane ==> quiet && Undoing(codec, disk, journal)
      requires Linked()
      modifies this
      ensures Linked() && old(history) <= history
      ensures old(effects) <= effects
      ensures HarmlessSince(codec, effects, |old(effects)|, journal.files)
      ensures sane ==> Undoing(codec, disk, journal) && RecoversSince(codec, effects, |old(effects)|, old(disk), disk)
      ensures sane ==> forall k | 0 <= k < |journal.files| ::
        !Matches(codec, old(disk), journal.files[k]) ==> !Matches(codec, disk, journal.files[k])
      ensures sane && r.Pass? ==> !Matches(codec, disk, journal.files[i])
      ensures sane && Recoverable(codec, old(disk)) ==> Recoverable(codec, disk) && (reliable ==> r.Pass?)
    {
      hide IsLinked;
      hide RecoverDisk, RecoveryEffect, JournalAt, ManifestCommitted, Harmless;
      if sane && Recoverable(codec, disk) { ListedIsClear(codec, disk, journal, i); }
      r := RemoveUnmodified(journal.files[i]);
      if effects != old(effects) {
        ghost var e := effects[|effects|-1];
        RemovalIsHarmless(codec, e, journal.files, i);
        if sane { ListedRemoved(codec, old(disk), journal, i); }
      }
    }

    // ------------------------------------------------ applying

    /** Writes the journal on an untouched disk. */
    method WriteJournal(text: string, ghost t: Transaction, ghost active: bool) returns (r: Outcome<Error>)
      requires active ==> quiet && Starting(codec, t, disk) && text == JournalText(codec, t)
      requires Linked()
      modifies this
      ensures Linked() && old(history) <= history
      ensures old(effects) <= effects
      ensures HarmlessSince(codec, effects, |old(effects)|, [])
      ensures active ==> MidwaySince(codec, t, effects, |old(effects)|)
      ensures active && r.Pass? ==> Creating(codec, t, disk, 0)
      ensures active && r.Fail? ==> Starting(codec, t, disk)
      ensures active && reliable && Undisturbed(t, old(disk)) && JOURNAL !in old(disk) ==> r.Pass? && Undisturbed(t, disk)
    {
      hide *;
      if active { StartingHasRoom(codec, t, disk); }
      r := EnsureManifestDirectory();
      DirectoriesSinceAreHarmless(codec, effects, |old(effects)|);
      if active { StartingDirectories(codec, t, old(disk), disk, effects, |old(effects)|); }
      if r.Fail? { return; }
      UndisturbedByDirectory(t, old(disk), disk, text);
      Interfere();
      if JOURNAL in disk && !disk[JOURNAL].File? { return Fail(Conflict); }
      label before:
      var written := WriteAtomically(JOURNAL, text);
      if written.Fail? { return Fail(ScaffoldFailed); }
      ghost var e := effects[|effects|-1];
      JournalWriteIsHarmless(codec, e, text);
      if active { StartingJournal(codec, t, old@before(disk)); }
      OneMoreEffect(codec, t, old@before(effects), effects, |old(effects)|, active);
    }

    /** Creates one file of the transaction and the directories above it. */
    method CreateFile(files: seq<ScaffoldFile>, n: nat, created: seq<Path>, ghost t: Transaction, ghost active: bool)
      returns (r: Outcome<Error>, dirs: seq<Path>)
      requires n < |files|
      requires active ==> quiet && t.files == files && Creating(codec, t, disk, n) && AllAboveTargets(t, created)
      requires Linked() && AllMade(effects, created)
      modifies this
      ensures Linked() && old(history) <= history && AllMade(effects, dirs)
      ensures old(effects) <= effects
      ensures HarmlessSince(codec, effects, |old(effects)|, [])
      ensures active ==> MidwaySince(codec, t, effects, |old(effects)|) && AllAboveTargets(t, dirs)
      ensures active ==> Creating(codec, t, disk, if r.Pass? then n + 1 else n)
      ensures r.Pass? ==> |effects| > |old(effects)| && Creates(effects[|effects|-1], files[n].path)
      ensures active && reliable && Undisturbed(t, old(disk)) ==> r.Pass? && Undisturbed(t, disk)
    {
      hide *;
      if active { CreatingHasRoom(codec, t, disk, n); }
      r, dirs := CreateParents(files[n].path, created);
      DirectoriesSinceAreHarmless(codec, effects, |old(effects)|);
      if active {
        CreatingDirectories(codec, t, old(disk), disk, n, effects, |old(effects)|);
        MoreAboveTargets(t, n, created, dirs);
        UndisturbedByParents(codec, t, old(disk), disk, n);
      }
      if r.Fail? { return; }
      label before:
      ghost var made := effects;
      var written := WriteExclusively(files[n].path, files[n].content);
      StillMade(made, effects, dirs);
      if written.Fail? {
        return Fail(if written.error == TargetAlreadyExists then Conflict else ScaffoldFailed), dirs;
      }
      ghost var e := effects[|effects|-1];
      CreationIsHarmless(codec, e, files[n].path, files[n].content);
      if active {
        CreatingNext(codec, t, old@before(disk), n);
        UndisturbedByTarget(t, old@before(disk), n);
      }
      OneMoreEffect(codec, t, old@before(effects), effects, |old(effects)|, active);
    }

    /** Creates the files in order; `count` is how many were created when it stopped. */
    method CreateFiles(files: seq<ScaffoldFile>, failureAfter: Option<nat>, ghost t: Transaction, ghost active: bool)
      returns (r: Outcome<Error>, count: nat, dirs: seq<Path>)
      requires active ==> quiet && t.files == files && Creating(codec, t, disk, 0)
      requires Linked()
      modifies this
      ensures Linked() && old(history) <= history && AllMade(effects, dirs)
      ensures old(effects) <= effects && count <= |files| && (r.Pass? ==> count == |files|)
      ensures r.Pass? && failureAfter.Some? ==> |files| == 0 || |files| < failureAfter.value
      ensures HarmlessSince(codec, effects, |old(effects)|, [])
      ensures active ==> MidwaySince(codec, t, effects, |old(effects)|) && AllAboveTargets(t, dirs) && Creating(codec, t, disk, count)
      ensures CreatedSince(effects, |old(effects)|, files, count)
      ensures active && reliable && failureAfter.None? && Undisturbed(t, old(disk)) ==> r.Pass? && Undisturbed(t, disk)
    {
      hide *;
      dirs, count := [], 0;
      r := Pass;
      NothingCreatedYet(codec, t, effects, files, dirs);
      while count < |files|
        invariant Linked() && old(history) <= history && AllMade(effects, dirs)
        invariant count <= |files| && (failureAfter.Some? ==> count == 0 || count < failureAfter.value)
        invariant old(effects) <= effects
        invariant HarmlessSince(codec, effects, |old(effects)|, [])
        invariant active ==> MidwaySince(codec, t, effects, |old(effects)|) && AllAboveTargets(t, dirs) && Creating(codec, t, disk, count)
        invariant CreatedSince(effects, |old(effects)|, files, count)
        invariant r.Pass? && (active && reliable && Undisturbed(t, old(disk)) ==> Undisturbed(t, disk))
      {
        label before:
        r, dirs := CreateFile(files, count, dirs, t, active);
        SinceBefore(codec, t, old@before(effects), effects, |old(effects)|, active);
        CreatedSinceGrows(old@before(effects), effects, |old(effects)|, files, count);
        if r.Fail? { return; }
        count := count + 1;
        if failureAfter.Some? && count >= failureAfter.value { return Fail(ScaffoldFailed), count, dirs; }
      }
    }

    /** Creates the files, then publishes the manifest. */
    method CreateAndPublish(files: seq<ScaffoldFile>, manifest: string, expected: Option<string>,
                            failureAfter: Option<nat>, ghost t: Transaction, ghost active: bool)
      returns (r: Outcome<Error>, count: nat, dirs: seq<Path>)
      requires active ==> quiet && t.files == files && t.manifest == manifest && Creating(codec, t, disk, 0)
      requires Linked()
      modifies this
      ensures Linked() && old(history) <= history && AllMade(effects, dirs)
      ensures old(effects) <= effects && count <= |files|
      ensures HarmlessSince(codec, effects, |old(effects)|, [])
      ensures CreatedSince(effects, |old(effects)|, files, count)
      ensures active ==> MidwaySince(codec, t, effects, |old(effects)|)
      ensures active && r.Fail? ==> AllAboveTargets(t, dirs) && Creating(codec, t, disk, count)
      ensures active && r.Pass? ==> Published(codec, t, disk)
      ensures active && reliable && failureAfter.None? && Undisturbed(t, old(disk)) && ManifestAt(t.before) == Ok(expected) ==> r.Pass?
    {
      hide IsLinked;
      hide Creating, Harmless, Midway, Creates, Published, AllAboveTargets, Grown, Undisturbed, ManifestAt;
      r, count, dirs := CreateFiles(files, failureAfter, t, active);
      if r.Fail? { return; }
      label before:
      if active {
        CreatingHasDirectory(codec, t, disk, count);
        CreatingHasManifest(codec, t, disk, count);
      }
      r := WriteManifest(manifest, expected);
      StillMade(old@before(effects), effects, dirs);
      CreatedSinceStays(old@before(effects), effects, |old(effects)|, files, count);
      if active { CreatingIsMidway(codec, t, old@before(disk), count); }
      if active && r.Pass? { CreatingPublishes(codec, t, old@before(disk), disk); }
    }

    /** The whole transaction from the journal on. */
    method Commit(files: seq<ScaffoldFile>, manifest: string, expected: Option<string>,
                  failureAfter: Option<nat>, ghost t: Transaction, ghost active: bool)
      returns (r: Outcome<Error>)
      requires active ==> quiet && t.files == files && t.manifest == manifest && Starting(codec, t, disk)
      requires Linked()
      modifies this
      ensures Linked() && old(history) <= history
      ensures old(effects) <= effects
      ensures HarmlessSince(codec, effects, |old(effects)|, JournalFiles(codec, files))
      ensures RemovesOnlyItsOwn(effects, |old(effects)|)
      ensures active ==> MidwaySince(codec, t, effects, |old(effects)|)
      ensures active && r.Pass? ==> Midway(codec, t, disk) && Committed(t, disk) && Grown(t.before, disk)
      ensures active && r.Pass? ==> JOURNAL in disk ==> disk[JOURNAL].File?
      ensures active && r.Pass? && reliable ==> JOURNAL !in disk
      ensures active && r.Fail? ==> Midway(codec, t, disk)
      ensures active && reliable && r.Fail? ==> FileAt(disk, JOURNAL) == None && Untouched(t, disk)
      ensures active && reliable && failureAfter.None? && Undisturbed(t, old(disk)) && JOURNAL !in old(disk) ==>
        ManifestAt(t.before) == Ok(expected) ==> r.Pass?
    {
      hide IsLinked;
      hide Undisturbed, ManifestAt, Starting, Creating, Harmless, Midway, Creates, Published, AllAboveTargets, Grown, Committed, Untouched,
        CreatedSince, Removes, RemovesOnlyItsOwn;
      var journal := Journal(JOURNAL_VERSION, codec.hash(manifest), JournalFiles(codec, files));
      r := WriteJournal(codec.printJournal(journal), t, active);
      if r.Fail? {
        HarmlessJoin(codec, effects, |old(effects)|, |effects|, journal.files);
        NothingRemoved(codec, effects, |old(effects)|);
        if active { StartingIsMidway(codec, t, disk); }
        return;
      }
      label journaled:
      var count, dirs;
      r, count, dirs := CreateAndPublish(files, manifest, expected, failureAfter, t, active);
      label worked:
      var tidied: Outcome<Error>;
      if r.Fail? {
        tidied := UndoWork(journal.files[..count], dirs, t, active, count);
      } else {
        if active { PublishedHasJournal(codec, t, disk); }
        tidied := RemoveJournal();
        JournalRemovalIsHarmless(codec, old@worked(effects), effects, journal.files[..count]);
        if active { PublishedTidied(codec, t, old@worked(disk), disk); }
      }
      assert effects[..|old@worked(effects)|] == old@worked(effects);
      HarmlessJoin(codec, old@worked(effects), |old(effects)|, |old@journaled(effects)|, []);
      HarmlessJoin(codec, effects, |old(effects)|, |old@worked(effects)|, journal.files[..count]);
      HarmlessSinceMore(codec, effects, |old(effects)|, journal.files[..count], journal.files);
      OwnRemovals(codec, effects, |old(effects)|, |old@journaled(effects)|, |old@worked(effects)|, files, count);
    }

    /** Rolls back and, if that went well, removes the journal. */
    method UndoWork(created: seq<JournalFile>, dirs: seq<Path>, ghost t: Transaction, ghost active: bool, ghost count: nat)
      returns (r: Outcome<Error>)
      requires active ==> quiet && Creating(codec, t, disk, count) && AllAboveTargets(t, dirs)
      requires active ==> count <= |t.files| && created == JournalFiles(codec, t.files)[..count]
      requires Linked() && AllMade(effects, dirs)
      modifies this
      ensures Linked() && old(history) <= history
      ensures old(effects) <= effects
      ensures HarmlessSince(codec, effects, |old(effects)|, created)
      ensures active ==> MidwaySince(codec, t, effects, |old(effects)|) && Midway(codec, t, disk)
      ensures active && reliable ==> FileAt(disk, JOURNAL) == None && Untouched(t, disk)
    {
      hide IsLinked;
      hide Creating, Harmless, Midway, AllAboveTargets, Untouched, UndoReady, Sound, Uncommitted, NoneCreated;
      if active { CreatingCanBeUndone(codec, t, disk, count); }
      r := Rollback(created, dirs, t, active);
      label before:
      if active { UndoneIsMidway(codec, t, disk); }
      if r.Pass? {
        var removed := RemoveJournal();
        JournalRemovalIsHarmless(codec, old@before(effects), effects, created);
        if active { UndoneTidied(codec, t, old@before(disk), disk); }
      }
    }

    /** Picks the files of the scaffold that are planned as missing. */
    method SelectMissing(files: seq<ScaffoldFile>, plan: seq<FilePlan>) returns (missing: seq<ScaffoldFile>)
      ensures missing == MissingFiles(files, plan)
    {
      missing := [];
      for i := 0 to |files|
        invariant missing + MissingFiles(files[i..], plan) == MissingFiles(files, plan)
      {
        assert files[i..] == [files[i]] + files[i+1..];
        if exists k | 0 <= k < |plan| :: plan[k].path == files[i].path && plan[k].status == Missing {
          missing := missing + [files[i]];
        }
      }
    }

    /** Fails unless every file is still missing. */
    method RecheckMissing(files: seq<ScaffoldFile>) returns (r: Outcome<Error>)
      requires Linked()
      modifies this`disk, this`history
      ensures Linked() && old(history) <= history
      ensures quiet ==> disk == old(disk)
      ensures r.Pass? ==> forall i | 0 <= i < |files| :: WasMissing(history, |old(history)| - 1, files[i])
      ensures quiet && r.Pass? ==> forall i | 0 <= i < |files| :: Inspect(disk, files[i].path, files[i].content) == Missing
      ensures quiet && reliable && (forall i | 0 <= i < |files| :: Inspect(old(disk), files[i].path, files[i].content) == Missing) ==> r.Pass?
    {
      HistoryBegan(history, effects, disk, quiet);
      hide IsLinked, WasMissing, AllOrderly, Inspect;
      for i := 0 to |files|
        invariant Linked() && old(history) <= history
        invariant quiet ==> disk == old(disk)
        invariant forall k | 0 <= k < i :: WasMissing(history, |old(history)| - 1, files[k])
        invariant quiet ==> forall k | 0 <= k < i :: Inspect(disk, files[k].path, files[k].content) == Missing
      {
        ghost var before := history;
        Interfere();
        StillMissing(before, |old(history)| - 1, history, files, i);
        SeenNow(history, effects, disk, quiet, |old(history)| - 1, history);
        var fails := SystemCallFails();
        if fails { return Fail(ScaffoldFailed); }
        if Inspect(disk, files[i].path, files[i].content) != Missing { return Fail(Conflict); }
      }
      return Pass;
    }

    method MarkAdded(plan: seq<FilePlan>) returns (files: seq<FilePlan>)
      ensures files == CommittedFiles(plan)
    {
      files := [];
      for i := 0 to |plan|
        invariant |files| == i && forall k | 0 <= k < i :: files[k] == CommittedFile(plan[k])
      {
        files := files + [if plan[i].status == Missing then plan[i].(status := Added) else plan[i]];
      }
    }

    /** Applies a plan as one transaction. */
    method Apply(sc: Scaffold, plan: Plan, now: string, failureAfter: Option<nat>) returns (r: Result<Plan, Error>)
      requires codec.Lawful() && GoodScaffold(codec, sc) && PlanFor(codec, sc, plan.files)
      requires Linked()
      modifies this
      ensures Linked() && old(history) <= history
      ensures old(effects) <= effects
      ensures HarmlessSince(codec, effects, |old(effects)|, JournalFiles(codec, MissingFiles(sc.files, plan.files)))
      ensures RemovesOnlyItsOwn(effects, |old(effects)|)
      ensures r.Ok? ==> r.value == CommittedPlan(plan)
      ensures quiet && Ready(codec, sc, plan.files, old(disk)) ==>
        Applied(codec, TransactionFor(codec, sc, plan.files, old(disk), now), disk, effects, |old(effects)|, r.Ok?, reliable)
      ensures quiet && reliable && failureAfter.None? && Ready(codec, sc, plan.files, old(disk)) ==> r.Ok?
    {
      hide IsLinked;
      ghost var active := quiet && Ready(codec, sc, plan.files, disk);
      ghost var t := if active then TransactionFor(codec, sc, plan.files, disk, now) else Transaction(disk, [], "");
      if active {
        TransactionIsSound(codec, sc, plan.files, disk, now);
        TransactionStarts(codec, t);
        NotAppliedYet(codec, t, effects, |old(effects)|, reliable);
        ReadyIsUndisturbed(codec, sc, plan.files, disk, now);
      }
      NothingRemoved(codec, effects, |old(effects)|);
      CommittedPlanDistinct(codec, sc, plan.files);
      hide Ready, Applied, Starting, Harmless, RemovesOnlyItsOwn, Midway, GoodScaffold, PlanFor, PlanCaseDistinct, Inspect;
      hide Undisturbed, ManifestAt, MissingFiles, AppliedManifest, CommittedFiles, MissingStays;
      var committed := MarkAdded(plan.files);
      if active { ReadyManifest(codec, sc, plan.files, disk); }
      var prepared := Prepare(sc, plan.files, committed, now);
      if prepared.Err? { return Err(prepared.error); }
      Interfere();
      var done := Commit(prepared.value.missing, prepared.value.manifest, prepared.value.expected, failureAfter, t, active);
      if active { AppliedBy(codec, t, disk, effects, |old(effects)|, done.Pass?, reliable); }
      if done.Fail? { return Err(done.error); }
      return Ok(plan.(files := committed, addedCount := plan.missingCount, missingCount := 0));
    }

    /** Everything before the journal: the manifest to expect and to publish, and the files to create, which
        are still missing. */
    method Prepare(sc: Scaffold, plan: seq<FilePlan>, committed: seq<FilePlan>, now: string) returns (r: Result<Prepared, Error>)
      requires PlanCaseDistinct(committed)
      requires Linked()
      modifies this`disk, this`history
      ensures Linked() && old(history) <= history
      ensures quiet ==> disk == old(disk)
      ensures r.Ok? ==>
        && r.value.missing == MissingFiles(sc.files, plan)
        && (r.value.expected.Some? ==> codec.parseManifest(r.value.expected.value).Some?)
        && r.value.manifest == AppliedManifest(codec, sc, committed, r.value.expected, now)
      ensures r.Ok? ==> forall i | 0 <= i < |r.value.missing| :: WasMissing(history, |old(history)| - 1, r.value.missing[i])
      ensures r.Ok? && quiet ==> ManifestAt(disk) == Ok(r.value.expected)
      ensures quiet && reliable && CanMerge(codec, sc, ManifestAt(old(disk))) && MissingStays(old(disk), MissingFiles(sc.files, plan)) ==> r.Ok?
    {
      HistoryBegan(history, effects, disk, quiet);
      hide IsLinked, WasMissing, AllOrderly;
      hide AppliedManifest, ManifestAt, MissingFiles, PlanCaseDistinct, Inspect, Compatible;
      var expected := ReadManifest();
      if expected.Err? { return Err(expected.error); }
      var manifest := MergeManifest(codec, sc, committed, expected.value, now);
      if manifest.Err? { return Err(manifest.error); }
      var missing := SelectMissing(sc.files, plan);
      var stagingFails := SystemCallFails();
      if stagingFails { return Err(ScaffoldFailed); }
      ghost var read := history;
      var recheck := RecheckMissing(missing);
      MissingSinceEarlier(history, |old(history)| - 1, |read| - 1, missing);
      if recheck.Fail? { return Err(recheck.error); }
      return Ok(Prepared(missing, manifest.value, expected.value));
    }

    // ------------------------------------------------ planning

    /** What planning says about one file: a missing file with a record is a conflict. */
    method CompareFile(file: ScaffoldFile, managed: set<Path>) returns (r: Result<Status, Error>)
      requires Linked()
      modifies this`disk, this`history
      ensures Linked() && old(history) <= history
      ensures quiet ==> disk == old(disk)
      ensures r.Ok? ==> r.value != Added && (r.value == Missing ==> Lower(file.path) !in managed)
      ensures r.Ok? && quiet ==> r.value == StatusOf(disk, file, managed)
      ensures reliable ==> r.Ok?
    {
      hide IsLinked;
      Interfere();
      var fails := SystemCallFails();
      if fails { return Err(ScaffoldFailed); }
      var status := Inspect(disk, file.path, file.content);
      if status == Missing && Lower(file.path) in managed {
        status := Conflicted;
      }
      return Ok(status);
    }

    /** Compares every file of the scaffold with the disk and counts the outcomes. */
    method PlanFiles(sc: Scaffold, managed: set<Path>) returns (r: Result<Plan, Error>)
      requires Linked()
      modifies this`disk, this`history
      ensures Linked() && old(history) <= history
      ensures quiet ==> disk == old(disk)
      ensures r.Ok? ==> PlanFor(codec, sc, r.value.files)
      ensures r.Ok? && quiet ==> forall i | 0 <= i < |sc.files| :: r.value.files[i].status == StatusOf(disk, sc.files[i], managed)
      ensures r.Ok? ==> forall i | 0 <= i < |sc.files| && r.value.files[i].status == Missing :: Lower(sc.files[i].path) !in managed
      ensures r.Ok? ==> CountsAreRight(r.value) && r.value.addedCount == 0
      ensures r.Ok? && quiet && WellFormed(disk) ==>
        forall i | 0 <= i < |sc.files| :: StatusMeans(disk, sc.files[i], Lower(sc.files[i].path) in managed, r.value.files[i].status)
      ensures reliable ==> r.Ok?
    {
      hide IsLinked, AllOrderly, StatusOf, StatusMeans, WellFormed, Lower, CountStatus;
      var files: seq<FilePlan> := [];
      NothingCounted();
      var missing, same, conflicts := 0, 0, 0;
      for i := 0 to |sc.files|
        invariant Linked() && old(history) <= history
        invariant quiet ==> disk == old(disk)
        invariant |files| == i
        invariant forall k | 0 <= k < i ::
          files[k].path == sc.files[k].path && files[k].kind == sc.files[k].kind
          && files[k].checksum == codec.hash(sc.files[k].content) && files[k].status != Added
        invariant quiet ==> forall k | 0 <= k < i :: files[k].status == StatusOf(disk, sc.files[k], managed)
        invariant forall k | 0 <= k < i && files[k].status == Missing :: Lower(sc.files[k].path) !in managed
        invariant missing == CountStatus(files, Missing) && same == CountStatus(files, Unchanged)
        invariant conflicts == CountStatus(files, Conflicted) && CountStatus(files, Added) == 0
      {
        var file := sc.files[i];
        var compared := CompareFile(file, managed);
        if compared.Err? { return Err(compared.error); }
        var status := compared.value;
        match status {
          case Missing => missing := missing + 1;
          case Unchanged => same := same + 1;
          case Conflicted => conflicts := conflicts + 1;
        }
        var next := FilePlan(file.path, file.kind, codec.hash(file.content), status);
        OneMoreCounted(files, next);
        files := files + [next];
      }
      StatusesMean(disk, sc.files, files, managed, quiet);
      return Ok(Plan(files, missing, 0, same, conflicts));
    }
  }

  // ---------------------------------------------------------------- the stages of an apply, on disks

  /** What an apply promises when nobody interferes. Every write leaves a disk recovery can settle; success
      commits the transaction; failure leaves a disk recovery can settle and, when no system call failed,
      a disk without a trace of the transaction. */
  ghost predicate Applied(codec: Codec, t: Transaction, d: Disk, log: seq<Effect>, from: nat, ok: bool, reliable: bool) {
    && Sound(codec, t) && MidwaySince(codec, t, log, from) && Midway(codec, t, d)
    && (ok ==> Committed(t, d) && Grown(t.before, d) && (JOURNAL in d ==> d[JOURNAL].File?))
    && (ok && reliable ==> JOURNAL !in d)
    && (!ok && reliable ==> FileAt(d, JOURNAL) == None && Untouched(t, d))
  }

  lemma TransactionStarts(codec: Codec, t: Transaction)
    requires codec.Lawful() && Sound(codec, t) && JOURNAL !in t.before
    ensures Starting(codec, t, t.before)
  {
    StartIsMidway(codec, t);
  }

  lemma NotAppliedYet(codec: Codec, t: Transaction, log: seq<Effect>, from: nat, reliable: bool)
    requires Starting(codec, t, t.before) && from == |log|
    ensures Applied(codec, t, t.before, log, from, false, reliable)
  {
  }

  lemma AppliedBy(codec: Codec, t: Transaction, d: Disk, log: seq<Effect>, from: nat, ok: bool, reliable: bool)
    requires Sound(codec, t) && MidwaySince(codec, t, log, from) && Midway(codec, t, d)
    requires ok ==> Committed(t, d) && Grown(t.before, d) && (JOURNAL in d ==> d[JOURNAL].File?)
    requires ok && reliable ==> JOURNAL !in d
    requires !ok && reliable ==> FileAt(d, JOURNAL) == None && Untouched(t, d)
    ensures Applied(codec, t, d, log, from, ok, reliable)
  {
  }

  lemma ReadyManifest(codec: Codec, sc: Scaffold, plan: seq<FilePlan>, d: Disk)
    requires Ready(codec, sc, plan, d)
    ensures ManifestAt(d).Ok? && (ManifestAt(d).value.Some? ==> codec.parseManifest(ManifestAt(d).value.value).Some?)
  {
  }

  /** Nothing was written yet, except perhaps the directory for the journal. */
  ghost predicate Starting(codec: Codec, t: Transaction, d: Disk) {
    && codec.Lawful() && Sound(codec, t) && Midway(codec, t, d) && Untouched(t, d)
    && JOURNAL !in t.before && FileAt(d, JOURNAL) == None && Grown(t.before, d)
  }

  /** Every target is free, and what is on the disk besides what was there is the transaction's: the
      directory of the journal, the journal, created files, and directories above them. */
  ghost predicate Undisturbed(t: Transaction, d: Disk) {
    && (forall i | 0 <= i < |t.files| :: t.files[i].path !in t.before)
    && JOURNAL !in t.before && FileAt(t.before, SSEALED) == None
    && (forall p | p in d && p !in t.before :: IsOurs(t, d, p))
  }

  ghost predicate IsOurs(t: Transaction, d: Disk, p: Path)
    requires p in d
  {
    p == SSEALED || p == JOURNAL || (IsTarget(t, p) && d[p].File?) || AboveTarget(t, p)
  }

  lemma ReadyIsUndisturbed(codec: Codec, sc: Scaffold, plan: seq<FilePlan>, d: Disk, now: string)
    requires Ready(codec, sc, plan, d)
    ensures Undisturbed(TransactionFor(codec, sc, plan, d, now), d) && JOURNAL !in d
    ensures MissingStays(d, MissingFiles(sc.files, plan)) && CanMerge(codec, sc, ManifestAt(d))
  {
    assert MANIFEST[..1] == SSEALED;
    MissingFilesAre(sc.files, plan);
    var missing := MissingFiles(sc.files, plan);
    forall i | 0 <= i < |missing| ensures Inspect(d, missing[i].path, missing[i].content) == Missing {
      assert missing[i] in missing;
    }
  }

  lemma StartingHasRoom(codec: Codec, t: Transaction, d: Disk)
    requires Starting(codec, t, d)
    ensures Undisturbed(t, d) && JOURNAL !in d ==> FileAt(d, SSEALED) == None
  {
    forall i | 0 <= i < |t.files| ensures t.files[i].path != SSEALED { assert GoodTarget(codec, t.before, t.files[i].path); }
    assert FileAt(d, SSEALED) == FileAt(t.before, SSEALED);
  }

  lemma UndisturbedByDirectory(t: Transaction, d: Disk, d': Disk, text: string)
    ensures Undisturbed(t, d) && JOURNAL !in d && (d' == d || d' == d[SSEALED := Directory]) ==>
      Undisturbed(t, d') && JOURNAL !in d' && Undisturbed(t, d'[JOURNAL := File(text)])
    ensures SSEALED in d' && d'[SSEALED] == Directory ==> HasParent(d', JOURNAL)
  {
    JournalHasOtherName();
    if SSEALED in d' && d'[SSEALED] == Directory { JournalHasParent(d'); }
  }

  lemma JournalHasOtherName()
    ensures SSEALED != JOURNAL && MANIFEST != JOURNAL && MANIFEST != SSEALED
  {
    assert |SSEALED| == 1 && |JOURNAL| == 2;
    assert MANIFEST[1] != JOURNAL[1];
  }

  lemma CreatingHasRoom(codec: Codec, t: Transaction, d: Disk, n: nat)
    requires Creating(codec, t, d, n) && n < |t.files|
    ensures ClearParents(d, t.files[n].path)
  {
  }

  /** What is new after making the directories above a target is the transaction's, and the target is still
      free. */
  lemma UndisturbedByParents(codec: Codec, t: Transaction, d: Disk, d': Disk, n: nat)
    requires Creating(codec, t, d', n) && n < |t.files| && OnlyDirectoriesAdded(d, d') && NewAbove(d, d', t.files[n].path)
    ensures Undisturbed(t, d) ==> Undisturbed(t, d') && t.files[n].path !in d'
  {
    if Undisturbed(t, d) {
      var path := t.files[n].path;
      assert GoodTarget(codec, t.before, path);
      forall p | p in d' && p !in t.before ensures IsOurs(t, d', p) {
        if p in d {
          assert IsOurs(t, d, p);
          if IsTarget(t, p) && d[p].File? { assert FileAt(d', p) == FileAt(d, p); }
        } else {
          assert p != [] && Below(p, path);
        }
      }
      TargetIsFree(codec, t, d', n);
    }
  }

  lemma TargetIsFree(codec: Codec, t: Transaction, d: Disk, n: nat)
    requires Creating(codec, t, d, n) && n < |t.files| && Undisturbed(t, d)
    ensures t.files[n].path !in d
  {
    var path := t.files[n].path;
    assert GoodTarget(codec, t.before, path) && FileAt(d, path) == None;
    assert path in d ==> IsOurs(t, d, path);
  }

  lemma UndisturbedByTarget(t: Transaction, d: Disk, n: nat)
    requires n < |t.files|
    ensures Undisturbed(t, d) ==> Undisturbed(t, d[t.files[n].path := File(t.files[n].content)])
  {
    if Undisturbed(t, d) {
      var path := t.files[n].path;
      var d' := d[path := File(t.files[n].content)];
      forall p | p in d' && p !in t.before ensures IsOurs(t, d', p) {
        if p == path {
          assert IsTarget(t, p);
        } else {
          assert IsOurs(t, d, p);
        }
      }
    }
  }

  lemma BelowSharesFirst(p: Path, q: Path)
    requires p != [] && Below(p, q)
    ensures p[0] == q[0]
  {
    assert q[..|p|][0] == q[0];
  }

  lemma ManifestIsNotOurs(t: Transaction, d: Disk)
    requires MANIFEST in d && forall i | 0 <= i < |t.files| :: Outside(t.files[i].path)
    ensures !IsOurs(t, d, MANIFEST)
  {
    JournalHasOtherName();
    forall i | 0 <= i < |t.files| ensures t.files[i].path != MANIFEST && !Below(MANIFEST, t.files[i].path) {
      if Below(MANIFEST, t.files[i].path) {
        BelowSharesFirst(MANIFEST, t.files[i].path);
        assert false;
      }
    }
  }

  lemma CreatingHasManifest(codec: Codec, t: Transaction, d: Disk, n: nat)
    requires Creating(codec, t, d, n)
    ensures Undisturbed(t, d) ==> ManifestAt(d) == ManifestAt(t.before) || ManifestAt(t.before).Err?
  {
    if Undisturbed(t, d) {
      JournalHasOtherName();
      assert MANIFEST[..1] == SSEALED;
      assert FileAt(d, MANIFEST) == FileAt(t.before, MANIFEST);
      forall i | 0 <= i < |t.files| ensures Outside(t.files[i].path) { assert GoodTarget(codec, t.before, t.files[i].path); }
      if MANIFEST in d { ManifestIsNotOurs(t, d); }
    }
  }

  ghost predicate CreatedPrefix(t: Transaction, d: Disk, n: nat)
    requires n <= |t.files|
  {
    && (forall i | 0 <= i < n :: FileAt(d, t.files[i].path) == Some(File(t.files[i].content)))
    && (forall i | n <= i < |t.files| :: FileAt(d, t.files[i].path) == None)
  }

  /** The journal is written and the first `n` files are created. */
  ghost predicate Creating(codec: Codec, t: Transaction, d: Disk, n: nat) {
    && codec.Lawful() && Sound(codec, t) && Uncommitted(codec, t, d)
    && n <= |t.files| && CreatedPrefix(t, d, n)
    && JOURNAL !in t.before && Grown(t.before, d)
  }

  /** The manifest is published, the journal is still there. */
  ghost predicate Published(codec: Codec, t: Transaction, d: Disk) {
    && codec.Lawful() && Sound(codec, t) && Midway(codec, t, d) && Committed(t, d)
    && JOURNAL !in t.before && Grown(t.before, d) && JOURNAL in d && d[JOURNAL].File?
  }

  ghost predicate AllAboveTargets(t: Transaction, dirs: seq<Path>) {
    forall i | 0 <= i < |dirs| :: AboveTarget(t, dirs[i])
  }

  ghost predicate CreatedSince(log: seq<Effect>, from: nat, files: seq<ScaffoldFile>, n: nat)
    requires n <= |files|
  {
    forall i | 0 <= i < n :: CreatedBy(log, from, files[i].path)
  }

  ghost predicate CreatedBy(log: seq<Effect>, from: nat, p: Path) {
    exists k | from <= k < |log| :: Creates(log[k], p)
  }

  lemma CreatedSinceStays(log: seq<Effect>, log': seq<Effect>, from: nat, files: seq<ScaffoldFile>, n: nat)
    requires log <= log' && n <= |files| && CreatedSince(log, from, files, n)
    ensures CreatedSince(log', from, files, n)
  {
    forall i | 0 <= i < n ensures CreatedBy(log', from, files[i].path) {
      assert CreatedBy(log, from, files[i].path);
      var k :| from <= k < |log| && Creates(log[k], files[i].path);
      assert log'[k] == log[k];
    }
  }

  lemma NothingCreatedYet(codec: Codec, t: Transaction, log: seq<Effect>, files: seq<ScaffoldFile>, dirs: seq<Path>)
    requires dirs == []
    ensures CreatedSince(log, |log|, files, 0) && HarmlessSince(codec, log, |log|, []) && MidwaySince(codec, t, log, |log|)
    ensures AllAboveTargets(t, dirs) && AllMade(log, dirs)
  {
  }

  lemma SinceBefore(codec: Codec, t: Transaction, log: seq<Effect>, log': seq<Effect>, from: nat, active: bool)
    requires from <= |log| && log <= log'
    requires HarmlessSince(codec, log, from, []) && HarmlessSince(codec, log', |log|, [])
    requires active ==> MidwaySince(codec, t, log, from) && MidwaySince(codec, t, log', |log|)
    ensures HarmlessSince(codec, log', from, [])
    ensures active ==> MidwaySince(codec, t, log', from)
  {
    hide Harmless, Midway;
    forall i | from <= i < |log'| ensures Harmless(codec, log'[i], []) {
      if i < |log| { assert log'[i] == log[i]; }
    }
    forall i | from <= i < |log'| && active ensures Midway(codec, t, log'[i].after) {
      if i < |log| { assert log'[i] == log[i]; }
    }
  }

  lemma OneMoreEffect(codec: Codec, t: Transaction, log: seq<Effect>, log': seq<Effect>, from: nat, active: bool)
    requires from <= |log| && log < log' && |log'| == |log| + 1
    requires HarmlessSince(codec, log, from, []) && Harmless(codec, log'[|log|], [])
    requires active ==> MidwaySince(codec, t, log, from) && Midway(codec, t, log'[|log|].after)
    ensures HarmlessSince(codec, log', from, [])
    ensures active ==> MidwaySince(codec, t, log', from)
  {
    hide Harmless, Midway;
    forall i | from <= i < |log'| ensures Harmless(codec, log'[i], []) && (active ==> Midway(codec, t, log'[i].after)) {
      if i < |log| { assert log'[i] == log[i]; }
    }
  }

  lemma CreatedSinceGrows(log: seq<Effect>, log': seq<Effect>, from: nat, files: seq<ScaffoldFile>, n: nat)
    requires from <= |log| && log <= log' && n < |files| && CreatedSince(log, from, files, n)
    ensures CreatedSince(log', from, files, n)
    ensures |log'| > |log| && Creates(log'[|log'|-1], files[n].path) ==> CreatedSince(log', from, files, n + 1)
  {
    CreatedSinceStays(log, log', from, files, n);
    if |log'| > |log| && Creates(log'[|log'|-1], files[n].path) {
      assert CreatedBy(log', from, files[n].path);
    }
  }

  lemma StartingDirectories(codec: Codec, t: Transaction, d: Disk, d': Disk, log: seq<Effect>, from: nat)
    requires Starting(codec, t, d) && OnlyDirectoriesAdded(d, d') && DirectoriesFrom(d, log, from)
    ensures Starting(codec, t, d') && MidwaySince(codec, t, log, from)
  {
    DirectoriesDoNotMatter(codec, t, d, d');
    forall i | from <= i < |log| ensures Midway(codec, t, log[i].after) {
      DirectoriesDoNotMatter(codec, t, d, log[i].after);
    }
  }

  lemma StartingJournal(codec: Codec, t: Transaction, d: Disk)
    requires Starting(codec, t, d) && SSEALED in d && d[SSEALED] == Directory && (JOURNAL in d ==> !d[JOURNAL].Directory?)
    ensures var d' := d[JOURNAL := File(JournalText(codec, t))]; Creating(codec, t, d', 0) && Midway(codec, t, d')
  {
    JournalWritten(codec, t, d);
    JournalGrows(t.before, d, JournalText(codec, t));
  }

  lemma JournalGrows(before: Disk, d: Disk, text: string)
    requires Grown(before, d) && JOURNAL !in before && SSEALED in d && d[SSEALED] == Directory
    requires JOURNAL in d ==> !d[JOURNAL].Directory?
    ensures Grown(before, d[JOURNAL := File(text)])
  {
    JournalHasParent(d);
    if WellFormed(before) { StillWellFormed(d, JOURNAL, File(text)); }
  }

  lemma JournalHasParent(d: Disk)
    requires SSEALED in d && d[SSEALED] == Directory
    ensures HasParent(d, JOURNAL) && SSEALED != JOURNAL
  {
    assert JOURNAL[..|JOURNAL|-1] == SSEALED;
  }

  lemma StartingIsMidway(codec: Codec, t: Transaction, d: Disk)
    requires Starting(codec, t, d)
    ensures Midway(codec, t, d) && FileAt(d, JOURNAL) == None && Untouched(t, d)
  {
  }

  lemma CreatingDirectories(codec: Codec, t: Transaction, d: Disk, d': Disk, n: nat, log: seq<Effect>, from: nat)
    requires Creating(codec, t, d, n) && OnlyDirectoriesAdded(d, d') && DirectoriesFrom(d, log, from)
    ensures Creating(codec, t, d', n) && MidwaySince(codec, t, log, from)
  {
    DirectoriesDoNotMatter(codec, t, d, d');
    forall i | from <= i < |log| ensures Midway(codec, t, log[i].after) {
      DirectoriesDoNotMatter(codec, t, d, log[i].after);
    }
  }

  lemma MoreAboveTargets(t: Transaction, n: nat, created: seq<Path>, dirs: seq<Path>)
    requires n < |t.files| && AllAboveTargets(t, created) && created <= dirs
    requires forall i | |created| <= i < |dirs| :: dirs[i] != [] && Below(dirs[i], t.files[n].path)
    ensures AllAboveTargets(t, dirs)
  {
    forall i | 0 <= i < |dirs| ensures AboveTarget(t, dirs[i]) {
      if i < |created| { assert dirs[i] == created[i]; }
    }
  }

  lemma CreatingNext(codec: Codec, t: Transaction, d: Disk, n: nat)
    requires Creating(codec, t, d, n) && n < |t.files| && t.files[n].path !in d && HasParent(d, t.files[n].path)
    ensures var d' := d[t.files[n].path := File(t.files[n].content)];
      Creating(codec, t, d', n + 1) && Midway(codec, t, d')
  {
    TargetCreated(codec, t, d, n);
    EntryAdded(d, t.files[n].path, File(t.files[n].content));
    var d' := d[t.files[n].path := File(t.files[n].content)];
    forall i | 0 <= i < |t.files| && i != n ensures FileAt(d', t.files[i].path) == FileAt(d, t.files[i].path) {
      assert t.files[i].path != t.files[n].path;
    }
  }

  lemma CreatingHasDirectory(codec: Codec, t: Transaction, d: Disk, n: nat)
    requires Creating(codec, t, d, n)
    ensures SSEALED in d && d[SSEALED] == Directory
  {
  }

  lemma CreatingIsMidway(codec: Codec, t: Transaction, d: Disk, n: nat)
    requires Creating(codec, t, d, n)
    ensures Midway(codec, t, d)
  {
  }

  lemma PublishedHasJournal(codec: Codec, t: Transaction, d: Disk)
    requires Published(codec, t, d)
    ensures JOURNAL in d && d[JOURNAL].File?
  {
  }

  lemma CreatingPublishes(codec: Codec, t: Transaction, d: Disk, d': Disk)
    requires Creating(codec, t, d, |t.files|) && d' == d[MANIFEST := File(t.manifest)] && Grown(d, d')
    ensures Published(codec, t, d') && Midway(codec, t, d')
  {
    ManifestPublished(codec, t, d);
  }

  lemma PublishedTidied(codec: Codec, t: Transaction, d: Disk, d': Disk)
    requires Published(codec, t, d) && (d' == d || d' == d - {JOURNAL})
    ensures Midway(codec, t, d') && Committed(t, d') && Grown(t.before, d')
  {
    if d' == d - {JOURNAL} {
      JournalRemoved(codec, t, d);
      if WellFormed(t.before) {
        forall q | q in d' ensures HasParent(d', q) {
          assert HasParent(d, q);
        }
      }
    }
  }

  lemma CreatingCanBeUndone(codec: Codec, t: Transaction, d: Disk, n: nat)
    requires Creating(codec, t, d, n)
    ensures n <= |t.files| && Sound(codec, t) && UndoReady(codec, t, d, JournalFiles(codec, t.files)[..n])
  {
  }

  lemma UndoneIsMidway(codec: Codec, t: Transaction, d: Disk)
    requires Uncommitted(codec, t, d)
    ensures Midway(codec, t, d) && JOURNAL in d && d[JOURNAL].File?
  {
  }

  lemma UndoneTidied(codec: Codec, t: Transaction, d: Disk, d': Disk)
    requires Sound(codec, t) && Uncommitted(codec, t, d) && NoneCreated(t, d) && (d' == d || d' == d - {JOURNAL})
    ensures Midway(codec, t, d') && Untouched(t, d')
  {
    JournalRemoved(codec, t, d);
  }

  // ---------------------------------------------------------------- harmless writes

  lemma JournalWriteIsHarmless(codec: Codec, e: Effect, text: string)
    requires e.after == e.before[JOURNAL := File(text)]
    ensures Harmless(codec, e, [])
  {
  }

  lemma CreationIsHarmless(codec: Codec, e: Effect, p: Path, text: string)
    requires p !in e.before && e.after == e.before[p := File(text)]
    ensures Harmless(codec, e, []) && Creates(e, p)
  {
  }

  lemma JournalRemovalIsHarmless(codec: Codec, log: seq<Effect>, log': seq<Effect>, listed: seq<JournalFile>)
    requires log' == log || (log < log' && |log'| == |log| + 1 && log'[|log|].after == log'[|log|].before - {JOURNAL})
    ensures HarmlessSince(codec, log', |log|, listed)
  {
  }

  lemma HarmlessSinceMore(codec: Codec, log: seq<Effect>, from: nat, listed: seq<JournalFile>, more: seq<JournalFile>)
    requires HarmlessSince(codec, log, from, listed) && listed <= more
    ensures HarmlessSince(codec, log, from, more)
  {
    forall i | from <= i < |log| ensures Harmless(codec, log[i], more) {
      HarmlessWithMore(codec, log[i], listed, more);
    }
  }

  lemma HarmlessJoin(codec: Codec, log: seq<Effect>, from: nat, middle: nat, listed: seq<JournalFile>)
    requires from <= middle <= |log| && HarmlessSince(codec, log[..middle], from, []) && HarmlessSince(codec, log, middle, listed)
    ensures HarmlessSince(codec, log, from, listed)
  {
    forall i | from <= i < |log| ensures Harmless(codec, log[i], listed) {
      if i < middle {
        assert log[..middle][i] == log[i];
        HarmlessWithMore(codec, log[i], [], listed);
      }
    }
  }

  lemma HarmlessRemovesNothing(codec: Codec, log: seq<Effect>, from: nat)
    requires HarmlessSince(codec, log, from, [])
    ensures forall i, p | from <= i < |log| :: !Removes(log[i], p)
  {
    forall i, p | from <= i < |log| ensures !Removes(log[i], p) {
      assert Harmless(codec, log[i], []);
    }
  }

  lemma NothingRemoved(codec: Codec, log: seq<Effect>, from: nat)
    requires HarmlessSince(codec, log, from, [])
    ensures RemovesOnlyItsOwn(log, from)
  {
    HarmlessRemovesNothing(codec, log, from);
  }

  /** What is removed after `worked` was created between `journaled` and `worked`. */
  lemma OwnRemovals(codec: Codec, log: seq<Effect>, from: nat, journaled: nat, worked: nat, files: seq<ScaffoldFile>, n: nat)
    requires from <= journaled <= worked <= |log| && n <= |files|
    requires HarmlessSince(codec, log[..worked], from, [])
    requires HarmlessSince(codec, log, worked, JournalFiles(codec, files)[..n])
    requires CreatedSince(log[..worked], journaled, files, n)
    ensures RemovesOnlyItsOwn(log, from)
  {
    var listed := JournalFiles(codec, files)[..n];
    HarmlessRemovesNothing(codec, log[..worked], from);
    forall i, p | from <= i < worked ensures !Removes(log[i], p) {
      assert log[..worked][i] == log[i];
    }
    forall i, p | worked <= i < |log| && Removes(log[i], p) ensures exists k | from <= k < i :: Creates(log[k], p) {
      assert Harmless(codec, log[i], listed);
      var j :| 0 <= j < |listed| && listed[j].path == p && Matches(codec, log[i].before, listed[j]);
      assert CreatedBy(log[..worked], journaled, files[j].path);
      var k :| journaled <= k < |log[..worked]| && Creates(log[..worked][k], files[j].path);
      assert Creates(log[k], p);
    }
  }

  ghost predicate UndoReady(codec: Codec, t: Transaction, d: Disk, created: seq<JournalFile>) {
    && codec.Lawful() && Sound(codec, t) && Uncommitted(codec, t, d)
    && created <= JournalFiles(codec, t.files)
    && (forall i | |created| <= i < |t.files| :: FileAt(d, t.files[i].path) == None)
  }

  ghost predicate GoneFrom(d: Disk, created: seq<JournalFile>, i: nat) {
    forall k | i <= k < |created| :: FileAt(d, created[k].path) == None
  }

  lemma AllGone(codec: Codec, t: Transaction, d: Disk, created: seq<JournalFile>)
    requires UndoReady(codec, t, d, created) && GoneFrom(d, created, 0)
    ensures NoneCreated(t, d)
  {
    forall k | 0 <= k < |t.files| ensures FileAt(d, t.files[k].path) == None {
      if k < |created| { assert created[k] == JournalFiles(codec, t.files)[k]; }
    }
  }

  lemma UndoableEntry(codec: Codec, t: Transaction, d: Disk, created: seq<JournalFile>, i: nat)
    requires UndoReady(codec, t, d, created) && i < |created|
    ensures codec.validPath(created[i].path) && !ParentConflict(d, created[i].path, 1)
  {
    assert created[i] == JournalFiles(codec, t.files)[i];
    assert GoodTarget(codec, t.before, t.files[i].path);
    ClearMeansNoConflict(d, created[i].path, 1);
  }

  lemma UndoneEntry(codec: Codec, t: Transaction, d: Disk, created: seq<JournalFile>, i: nat)
    requires UndoReady(codec, t, d, created) && i < |created| && Matches(codec, d, created[i])
    ensures var d' := d - {created[i].path};
      && UndoReady(codec, t, d', created) && Midway(codec, t, d')
      && FileAt(d', created[i].path) == None
      && (forall k :: GoneFrom(d, created, k) ==> GoneFrom(d', created, k))
  {
    assert created[i] == JournalFiles(codec, t.files)[i];
    assert t.files[i].path == created[i].path;
    TargetRemoved(codec, t, d, created[i].path);
    assert forall p :: FileAt(d, p) == None ==> FileAt(d - {created[i].path}, p) == None;
  }

  lemma UnmatchedIsGone(codec: Codec, t: Transaction, d: Disk, created: seq<JournalFile>, i: nat)
    requires UndoReady(codec, t, d, created) && i < |created| && !Matches(codec, d, created[i])
    ensures FileAt(d, created[i].path) == None
  {
    assert created[i] == JournalFiles(codec, t.files)[i];
    assert FileAt(d, t.files[i].path) in {None, Some(File(t.files[i].content))};
  }

  lemma EmptyDirectoryRemoved(codec: Codec, t: Transaction, d: Disk, dir: Path)
    requires Uncommitted(codec, t, d) && dir in d && d[dir].Directory? && dir != SSEALED
    ensures Uncommitted(codec, t, d - {dir})
    ensures NoneCreated(t, d) ==> NoneCreated(t, d - {dir})
  {
    assert forall p :: FileAt(d - {dir}, p) == FileAt(d, p);
    DirectoriesDoNotMatter(codec, t, d, d - {dir});
  }

  /** Entries only disappeared. */
  ghost predicate Within(d: Disk, start: Disk) {
    forall p | p in d :: p in start && d[p] == start[p]
  }

  /** Every write since `from` was one recovery may do, and did not change where recovery leads. */
  ghost predicate RecoversSince(codec: Codec, log: seq<Effect>, from: nat, start: Disk, now: Disk) {
    && (forall i | from <= i < |log| ::
          && RecoveryEffect(codec, log[i].before, log[i].after)
          && RecoverDisk(codec, log[i].after) == RecoverDisk(codec, start))
    && RecoverDisk(codec, now) == RecoverDisk(codec, start) && Within(now, start)
    && now == (if from < |log| then log[|log|-1].after else start)
  }

  ghost predicate Undoing(codec: Codec, d: Disk, journal: Journal) {
    JournalAt(codec, d) == Some(journal) && !ManifestCommitted(codec, d, journal) && SaneJournal(codec, d)
  }

  lemma ListedIsClear(codec: Codec, d: Disk, journal: Journal, i: nat)
    requires Undoing(codec, d, journal) && Recoverable(codec, d) && i < |journal.files|
    ensures codec.validPath(journal.files[i].path) && !ParentConflict(d, journal.files[i].path, 1)
  {
    ClearMeansNoConflict(d, journal.files[i].path, 1);
  }

  lemma ListedRemoved(codec: Codec, d: Disk, journal: Journal, i: nat)
    requires Undoing(codec, d, journal) && i < |journal.files| && Matches(codec, d, journal.files[i])
    ensures var d' := d - {journal.files[i].path};
      && Undoing(codec, d', journal) && RecoveryEffect(codec, d, d') && RecoverDisk(codec, d') == RecoverDisk(codec, d)
      && (forall k | 0 <= k < |journal.files| :: !Matches(codec, d, journal.files[k]) ==> !Matches(codec, d', journal.files[k]))
      && !Matches(codec, d', journal.files[i])
      && (Recoverable(codec, d) ==> Recoverable(codec, d'))
  {
    var p := journal.files[i].path;
    var d' := d - {p};
    assert Outside(p);
    assert Removable(codec, d, journal.files, p);
    RecoveryRestarts(codec, d, d');
    assert JournalAt(codec, d') == Some(journal);
    forall q | ClearParents(d, q) ensures ClearParents(d', q) {
      forall k | 0 < k < |q| ensures FileAt(d', q[..k]) == None {
        assert FileAt(d, q[..k]) == None;
      }
    }
  }

  lemma JournalRemovedLast(codec: Codec, d: Disk, journal: Journal)
    requires JournalAt(codec, d) == Some(journal)
    requires ManifestCommitted(codec, d, journal) || forall k | 0 <= k < |journal.files| :: !Matches(codec, d, journal.files[k])
    ensures RecoveryEffect(codec, d, d - {JOURNAL}) && RecoverDisk(codec, d) == d - {JOURNAL}
    ensures RecoverDisk(codec, d - {JOURNAL}) == d - {JOURNAL}
  {
    assert forall p :: Removable(codec, d, journal.files, p) ==> exists k | 0 <= k < |journal.files| :: Matches(codec, d, journal.files[k]);
    assert JournalAt(codec, d - {JOURNAL}) == None;
  }

  /** A directory on the way to a file of the transaction. */
  ghost predicate AboveTarget(t: Transaction, dir: Path) {
    dir != [] && exists i | 0 <= i < |t.files| :: Below(dir, t.files[i].path)
  }

  lemma DirectoryAboveTarget(codec: Codec, t: Transaction, d: Disk, dir: Path)
    requires Sound(codec, t) && Midway(codec, t, d) && AboveTarget(t, dir)
    ensures dir != SSEALED && FileAt(d, dir) == None && !ParentConflict(d, dir, 1)
  {
    var i :| 0 <= i < |t.files| && Below(dir, t.files[i].path);
    var p := t.files[i].path;
    assert GoodTarget(codec, t.before, p);
    assert dir[0] == p[0];
    assert FileAt(d, p[..|dir|]) == None;
    forall k | 0 < k < |dir| ensures FileAt(d, dir[..k]) == None {
      assert dir[..k] == p[..k];
    }
    ClearMeansNoConflict(d, dir, 1);
  }
}
