/** What the scaffold transaction works on: the disk, the scaffold, its manifest and its journal.

    The transaction itself is in `ScaffoldTransaction`. Here are the questions that are answered by
    looking at a disk once (is a file missing, is a manifest compatible) and the merge of newly
    created files into an existing manifest.
 */
module ScaffoldModel {
  import opened Prelude
  import opened Texts

  /** A relative path, one string for each component. */
  type Path = seq<string>

  const SSEALED: Path := [".ssealed"]
  const MANIFEST: Path := [".ssealed", "manifest.json"]
  const JOURNAL: Path := [".ssealed", "apply-journal.json"]
  const JOURNAL_VERSION := 1

  /** `Link` stands for symbolic links, reparse points and special files. */
  datatype Entry = File(text: string) | Directory | Link

  type Disk = map<Path, Entry>

  datatype Error = Conflict | ManifestConflict | ScaffoldFailed

  datatype ScaffoldFile = ScaffoldFile(path: Path, kind: string, content: string)

  datatype Scaffold = Scaffold(
    scope: string, profile: string, density: string, runner: string, files: seq<ScaffoldFile>)

  datatype Status = Missing | Unchanged | Conflicted | Added

  datatype FilePlan = FilePlan(path: Path, kind: string, checksum: string, status: Status)

  datatype Plan = Plan(
    files: seq<FilePlan>, missingCount: nat, addedCount: nat, unchangedCount: nat, conflictCount: nat)

  /** One record of the manifest; `notes` are the members this program neither reads nor changes. */
  datatype ManifestFile = ManifestFile(
    path: Path, kind: string, checksum: string, ownership: string, presence: string, notes: string)

  datatype Extra =
    | Kept(text: string)
    | Generated(generatedAt: string, conflicts: seq<FilePlan>)

  datatype Manifest = Manifest(
    tool: string, schemaVersion: int, scope: string, profile: string, density: string, runner: string,
    files: seq<ManifestFile>, extra: Extra)

  datatype JournalFile = JournalFile(path: Path, checksum: string)

  datatype Journal = Journal(version: int, manifestChecksum: string, files: seq<JournalFile>)

  /** The functions whose insides are not modelled: SHA-256, the JSON reader and writer and the path rules. */
  datatype Codec = Codec(
    hash: string -> string,
    isChecksum: string -> bool,
    validPath: Path -> bool,
    printManifest: Manifest -> string,
    parseManifest: string -> Option<Manifest>,
    printJournal: Journal -> string,
    parseJournal: string -> Option<Journal>)
  {
    /** Checksums tell different texts apart, and what is printed is read back. */
    ghost predicate Lawful() {
      && (forall a, b :: hash(a) == hash(b) ==> a == b)
      && (forall a :: isChecksum(hash(a)))
      && (forall m :: parseManifest(printManifest(m)) == Some(m))
      && (forall j :: parseJournal(printJournal(j)) == Some(j))
    }
  }

  // ---------------------------------------------------------------- paths

  /** `to_ascii_lowercase` of a path. */
  function Lower(p: Path): Path {
    seq(|p|, i requires 0 <= i < |p| => LowerText(p[i]))
  }

  /** The same path, ASCII case aside. */
  predicate SamePath(p: Path, q: Path) {
    |p| == |q| && forall i | 0 <= i < |p| :: SameLetters(p[i], q[i])
  }

  lemma LowerIff(p: Path, q: Path)
    ensures Lower(p) == Lower(q) <==> SamePath(p, q)
  {
    assert |Lower(p)| == |p| && |Lower(q)| == |q|;
    forall i | 0 <= i < |p| && |p| == |q| ensures Lower(p)[i] == Lower(q)[i] <==> SameLetters(p[i], q[i]) {
      LowerTextIff(p[i], q[i]);
    }
    if Lower(p) == Lower(q) {
      assert forall i | 0 <= i < |p| :: Lower(p)[i] == Lower(q)[i];
    }
  }

  /** What the bundled scaffolds satisfy: usable paths, none below another, none inside `.ssealed`,
      no two equal when letter case is ignored. */
  ghost predicate GoodScaffold(codec: Codec, sc: Scaffold) {
    && (forall i | 0 <= i < |sc.files| :: codec.validPath(sc.files[i].path))
    && (forall i | 0 <= i < |sc.files| :: Outside(sc.files[i].path))
    && CaseDistinct(sc.files)
    && (forall i, j | 0 <= i < |sc.files| && 0 <= j < |sc.files| ::
          !Below(sc.files[i].path, sc.files[j].path))
  }

  ghost predicate CaseDistinct(files: seq<ScaffoldFile>) {
    forall i, j | 0 <= i < j < |files| :: Lower(files[i].path) != Lower(files[j].path)
  }

  predicate Outside(p: Path) {
    |p| > 0 && p[0] != ".ssealed"
  }

  /** `q` is strictly below `p`. */
  predicate Below(p: Path, q: Path) {
    |p| < |q| && q[..|p|] == p
  }

  // ---------------------------------------------------------------- looking at the disk

  /** The file or link at a path; a directory counts as nothing. */
  function FileAt(d: Disk, p: Path): Option<Entry> {
    if p in d && !d[p].Directory? then Some(d[p]) else None
  }

  /** Walks the proper prefixes of `p` from the one of length `k`, as the source does. */
  predicate ParentConflict(d: Disk, p: Path, k: nat)
    decreases |p| - k
  {
    if k >= |p| then false
    else if p[..k] !in d then false
    else if !d[p[..k]].Directory? then true
    else ParentConflict(d, p, k + 1)
  }

  function Inspect(d: Disk, p: Path, content: string): Status {
    if ParentConflict(d, p, 1) then Conflicted
    else if p !in d then Missing
    else if d[p] == File(content) then Unchanged
    else Conflicted
  }

  function ManifestAt(d: Disk): Result<Option<string>, Error> {
    if ParentConflict(d, MANIFEST, 1) then Err(ManifestConflict)
    else if MANIFEST !in d then Ok(None)
    else if d[MANIFEST].File? then Ok(Some(d[MANIFEST].text))
    else Err(ManifestConflict)
  }

  /** Nothing but directories above `p`. */
  ghost predicate ClearParents(d: Disk, p: Path) {
    forall k | 0 < k < |p| :: FileAt(d, p[..k]) == None
  }

  /** Every entry lies in a directory. */
  ghost predicate WellFormed(d: Disk) {
    forall p {:trigger HasParent(d, p)} | p in d :: HasParent(d, p)
  }

  predicate HasParent(d: Disk, p: Path) {
    |p| > 1 ==> p[..|p|-1] in d && d[p[..|p|-1]].Directory?
  }

  lemma ParentsOfEntry(d: Disk, p: Path, k: nat)
    requires WellFormed(d) && p in d && 0 < k < |p|
    ensures p[..k] in d && d[p[..k]].Directory?
    decreases |p|
  {
    var parent := p[..|p|-1];
    assert HasParent(d, p);
    if k < |p| - 1 {
      ParentsOfEntry(d, parent, k);
      assert parent[..k] == p[..k];
    }
  }

  lemma NoConflictMeansClear(d: Disk, p: Path, k: nat)
    requires WellFormed(d) && 0 < k && !ParentConflict(d, p, k)
    ensures forall i | k <= i < |p| :: FileAt(d, p[..i]) == None
    decreases |p| - k
  {
    if k < |p| {
      if p[..k] in d {
        NoConflictMeansClear(d, p, k + 1);
      } else {
        forall i | k <= i < |p| ensures FileAt(d, p[..i]) == None {
          assert i > k ==> p[..i][..k] == p[..k];
          if i > k && p[..i] in d {
            ParentsOfEntry(d, p[..i], k);
          }
        }
      }
    }
  }

  lemma ClearMeansNoConflict(d: Disk, p: Path, k: nat)
    requires 0 < k && ClearParents(d, p)
    ensures !ParentConflict(d, p, k)
    decreases |p| - k
  {
    if k < |p| {
      assert FileAt(d, p[..k]) == None;
      ClearMeansNoConflict(d, p, k + 1);
    }
  }

  /** Nothing stands at `p`, and nothing but directories above it. */
  ghost predicate Vacant(d: Disk, p: Path) {
    p !in d && ClearParents(d, p)
  }

  lemma VacantIff(d: Disk, p: Path)
    requires WellFormed(d)
    ensures Vacant(d, p) <==> p !in d && !ParentConflict(d, p, 1)
  {
    if !ParentConflict(d, p, 1) { NoConflictMeansClear(d, p, 1); }
    if ClearParents(d, p) { ClearMeansNoConflict(d, p, 1); }
  }

  lemma EntryHasNoConflict(d: Disk, p: Path)
    requires WellFormed(d) && p in d
    ensures !ParentConflict(d, p, 1)
  {
    forall k | 0 < k < |p| ensures FileAt(d, p[..k]) == None {
      ParentsOfEntry(d, p, k);
    }
    ClearMeansNoConflict(d, p, 1);
  }

  /** What a look at one file says of the disk. */
  lemma InspectMeans(d: Disk, p: Path, content: string)
    requires WellFormed(d)
    ensures Inspect(d, p, content) == Unchanged <==> FileAt(d, p) == Some(File(content))
    ensures Inspect(d, p, content) == Missing <==> Vacant(d, p)
    ensures Inspect(d, p, content) in {Missing, Unchanged, Conflicted}
  {
    VacantIff(d, p);
    if p in d { EntryHasNoConflict(d, p); }
  }

  /** What reading the manifest says of the disk. */
  lemma ManifestAtMeans(d: Disk)
    requires WellFormed(d)
    ensures forall text :: ManifestAt(d) == Ok(Some(text)) <==> FileAt(d, MANIFEST) == Some(File(text))
    ensures ManifestAt(d) == Ok(None) <==> Vacant(d, MANIFEST)
    ensures ManifestAt(d).Err? ==> ManifestAt(d).error == ManifestConflict
  {
    VacantIff(d, MANIFEST);
    if MANIFEST in d { EntryHasNoConflict(d, MANIFEST); }
  }

  /** A record of the manifest on the disk is for `p`, case aside. */
  ghost predicate Manages(codec: Codec, d: Disk, p: Path) {
    exists text, m :: FileAt(d, MANIFEST) == Some(File(text)) && codec.parseManifest(text) == Some(m) && HasRecord(m.files, p)
  }

  predicate HasRecord(files: seq<ManifestFile>, p: Path) {
    exists r | r in files :: SamePath(r.path, p)
  }

  // ---------------------------------------------------------------- compatibility

  ghost predicate CompatibleHeader(sc: Scaffold, m: Manifest) {
    && m.tool == "ssealed" && m.schemaVersion == 1
    && m.scope == sc.scope && m.profile == sc.profile
    && m.density == sc.density && m.runner == sc.runner
  }

  ghost predicate CompatibleFiles(codec: Codec, files: seq<ManifestFile>) {
    && (forall i | 0 <= i < |files| :: codec.validPath(files[i].path) && codec.isChecksum(files[i].checksum))
    && (forall i, j | 0 <= i < j < |files| :: Lower(files[i].path) != Lower(files[j].path))
  }

  ghost predicate Compatible(codec: Codec, sc: Scaffold, m: Manifest) {
    CompatibleHeader(sc, m) && CompatibleFiles(codec, m.files)
  }

  function LowerPaths(files: seq<ManifestFile>): set<Path> {
    set f | f in files :: Lower(f.path)
  }

  lemma HasRecordIff(files: seq<ManifestFile>, p: Path)
    ensures Lower(p) in LowerPaths(files) <==> HasRecord(files, p)
  {
    hide Lower, SamePath;
    forall r | r in files ensures Lower(r.path) == Lower(p) <==> SamePath(r.path, p) {
      LowerIff(r.path, p);
    }
  }

  /** Checks records one by one against the set of lower-case paths already seen. */
  method ParseCompatible(codec: Codec, sc: Scaffold, text: string)
    returns (r: Result<Manifest, Error>)
    ensures r.Ok? <==> codec.parseManifest(text).Some? && Compatible(codec, sc, codec.parseManifest(text).value)
    ensures r.Ok? ==> codec.parseManifest(text) == Some(r.value)
    ensures r.Err? ==> r.error == ManifestConflict
  {
    var parsed := codec.parseManifest(text);
    if parsed.None? {
      return Err(ManifestConflict);
    }
    var m := parsed.value;
    if m.tool != "ssealed" || m.schemaVersion != 1 || m.scope != sc.scope || m.profile != sc.profile
       || m.density != sc.density || m.runner != sc.runner
    {
      return Err(ManifestConflict);
    }
    var paths: set<Path> := {};
    assert CompatibleFiles(codec, m.files[..0]) && LowerPaths(m.files[..0]) == {};
    hide CompatibleFiles, LowerPaths, Lower;
    for i := 0 to |m.files|
      invariant paths == LowerPaths(m.files[..i])
      invariant CompatibleFiles(codec, m.files[..i])
    {
      var file := m.files[i];
      assert m.files[..i+1] == m.files[..i] + [file];
      CompatibleSnoc(codec, m.files[..i], file);
      if !codec.validPath(file.path) || Lower(file.path) in paths || !codec.isChecksum(file.checksum) {
        CompatiblePrefix(codec, m.files, i + 1);
        return Err(ManifestConflict);
      }
      paths := paths + {Lower(file.path)};
    }
    assert m.files[..|m.files|] == m.files;
    return Ok(m);
  }

  lemma CompatibleSnoc(codec: Codec, files: seq<ManifestFile>, f: ManifestFile)
    ensures LowerPaths(files + [f]) == LowerPaths(files) + {Lower(f.path)}
    ensures CompatibleFiles(codec, files + [f]) <==>
      CompatibleFiles(codec, files) && codec.validPath(f.path) && codec.isChecksum(f.checksum) && Lower(f.path) !in LowerPaths(files)
  {
    hide Lower;
    var more := files + [f];
    assert forall i | 0 <= i < |files| :: more[i] == files[i];
    assert more[|files|] == f;
    if Lower(f.path) in LowerPaths(files) {
      var i :| 0 <= i < |files| && Lower(files[i].path) == Lower(f.path);
      assert Lower(more[i].path) == Lower(more[|files|].path);
    } else {
      assert forall i | 0 <= i < |files| :: Lower(files[i].path) in LowerPaths(files);
    }
  }

  lemma CompatiblePrefix(codec: Codec, files: seq<ManifestFile>, n: nat)
    requires n <= |files| && !CompatibleFiles(codec, files[..n])
    ensures !CompatibleFiles(codec, files)
  {
  }

  // ---------------------------------------------------------------- the manifest after an apply

  function ManifestRecord(f: FilePlan): ManifestFile {
    var block := f.path == [".gitignore"] || f.path == ["package.json"];
    ManifestFile(f.path, f.kind, f.checksum,
                 if block then "block-managed" else "seeded",
                 if block then "required" else "optional", "")
  }

  /** The record of a scaffold file: two files are kept up to date in parts, the others are the user's. */
  predicate IsRecordOf(codec: Codec, r: ManifestFile, f: ScaffoldFile) {
    && r.path == f.path && r.kind == f.kind && r.checksum == codec.hash(f.content)
    && (r.ownership == "block-managed" && r.presence == "required" <==> f.path in {[".gitignore"], ["package.json"]})
    && (r.ownership == "seeded" && r.presence == "optional" <==> f.path !in {[".gitignore"], ["package.json"]})
  }

  /** The planned files that get a record: `keep` says which. */
  function Records(plan: seq<FilePlan>, keep: FilePlan -> bool): seq<ManifestFile> {
    if plan == [] then []
    else (if keep(plan[0]) then [ManifestRecord(plan[0])] else []) + Records(plan[1..], keep)
  }

  /** Added files whose path, ignoring case, has no record yet. */
  function NewlyAdded(files: seq<ManifestFile>): FilePlan -> bool {
    (f: FilePlan) => f.status == Added && Lower(f.path) !in LowerPaths(files)
  }

  function NotConflicted(): FilePlan -> bool {
    (f: FilePlan) => f.status != Conflicted
  }

  function FreshManifest(sc: Scaffold, plan: seq<FilePlan>, now: string): Manifest {
    Manifest("ssealed", 1, sc.scope, sc.profile, sc.density, sc.runner,
             Records(plan, NotConflicted()),
             Generated(now, ConflictsOf(plan)))
  }

  function ConflictsOf(plan: seq<FilePlan>): seq<FilePlan> {
    if plan == [] then []
    else (if plan[0].status == Conflicted then [plan[0]] else []) + ConflictsOf(plan[1..])
  }

  ghost predicate PlanCaseDistinct(plan: seq<FilePlan>) {
    forall i, j | 0 <= i < j < |plan| :: Lower(plan[i].path) != Lower(plan[j].path)
  }

  /** The text the apply step will publish as the manifest. */
  function AppliedManifest(codec: Codec, sc: Scaffold, plan: seq<FilePlan>, existing: Option<string>, now: string)
    : string
    requires existing.Some? ==> codec.parseManifest(existing.value).Some?
  {
    match existing
    case None => codec.printManifest(FreshManifest(sc, plan, now))
    case Some(text) =>
      var m := codec.parseManifest(text).value;
      var added := Records(plan, NewlyAdded(m.files));
      if added == [] then text else codec.printManifest(m.(files := m.files + added))
  }

  /** Pushes a record for each added file whose path is not recorded yet. */
  method MergeManifest(codec: Codec, sc: Scaffold, plan: seq<FilePlan>, existing: Option<string>, now: string)
    returns (r: Result<string, Error>)
    requires PlanCaseDistinct(plan)
    ensures r.Ok? <==> (existing.Some? ==> codec.parseManifest(existing.value).Some?
                                           && Compatible(codec, sc, codec.parseManifest(existing.value).value))
    ensures r.Ok? ==> r.value == AppliedManifest(codec, sc, plan, existing, now)
    ensures r.Err? ==> r.error == ManifestConflict
  {
    if existing.None? {
      return Ok(codec.printManifest(FreshManifest(sc, plan, now)));
    }
    var parsed := ParseCompatible(codec, sc, existing.value);
    if parsed.Err? {
      return Err(parsed.error);
    }
    var m := parsed.value;
    var added := NewRecords(m.files, plan);
    if added == [] {
      return Ok(existing.value);
    }
    return Ok(codec.printManifest(m.(files := m.files + added)));
  }

  /** The records to push, found with a growing set of the lower-case paths already recorded. */
  method NewRecords(files: seq<ManifestFile>, plan: seq<FilePlan>) returns (added: seq<ManifestFile>)
    requires PlanCaseDistinct(plan)
    ensures added == Records(plan, NewlyAdded(files))
  {
    var recorded := LowerPaths(files);
    var paths := recorded;
    added := [];
    ghost var keep := NewlyAdded(files);
    for i := 0 to |plan|
      invariant added == Records(plan[..i], keep)
      invariant recorded <= paths
      invariant forall k | i <= k < |plan| :: Lower(plan[k].path) in paths ==> Lower(plan[k].path) in recorded
    {
      RecordsSnoc(plan[..i], plan[i], keep);
      assert plan[..i+1] == plan[..i] + [plan[i]];
      if plan[i].status == Added && Lower(plan[i].path) !in paths {
        paths := paths + {Lower(plan[i].path)};
        added := added + [ManifestRecord(plan[i])];
      }
    }
    assert plan[..|plan|] == plan;
  }

  lemma {:induction false} RecordsSnoc(plan: seq<FilePlan>, f: FilePlan, keep: FilePlan -> bool)
    ensures Records(plan + [f], keep) == Records(plan, keep) + (if keep(f) then [ManifestRecord(f)] else [])
  {
    hide ManifestRecord;
    if plan == [] {
      assert plan + [f] == [f];
    } else {
      assert (plan + [f])[1..] == plan[1..] + [f];
      RecordsSnoc(plan[1..], f, keep);
    }
  }

  /** Every record made for a plan belongs to a planned file that was kept, and the other way round. */
  lemma {:induction false} RecordsAre(plan: seq<FilePlan>, keep: FilePlan -> bool)
    ensures forall r :: r in Records(plan, keep) <==> exists i | 0 <= i < |plan| :: keep(plan[i]) && r == ManifestRecord(plan[i])
  {
    if plan != [] {
      RecordsAre(plan[1..], keep);
      forall r ensures r in Records(plan, keep) <==> exists i | 0 <= i < |plan| :: keep(plan[i]) && r == ManifestRecord(plan[i]) {
        if exists i | 0 <= i < |plan| :: keep(plan[i]) && r == ManifestRecord(plan[i]) {
          var i :| 0 <= i < |plan| && keep(plan[i]) && r == ManifestRecord(plan[i]);
          if i > 0 { assert plan[1..][i-1] == plan[i]; }
        } else {
          assert forall i | 0 <= i < |plan| - 1 :: plan[1..][i] == plan[i+1];
        }
      }
    }
  }

  ghost predicate RecordCaseDistinct(files: seq<ManifestFile>) {
    forall i, j | 0 <= i < j < |files| :: Lower(files[i].path) != Lower(files[j].path)
  }

  ghost predicate KeptCaseDistinct(plan: seq<FilePlan>, keep: FilePlan -> bool) {
    forall i, j | 0 <= i < j < |plan| && keep(plan[i]) && keep(plan[j]) ::
      Lower(plan[i].path) != Lower(plan[j].path)
  }

  lemma ConsCaseDistinct(r: ManifestFile, tail: seq<ManifestFile>)
    ensures RecordCaseDistinct([r] + tail) <==> RecordCaseDistinct(tail) && Lower(r.path) !in LowerPaths(tail)
  {
    var all := [r] + tail;
    assert forall i | 0 <= i < |tail| :: all[i+1] == tail[i];
    if Lower(r.path) in LowerPaths(tail) {
      var i :| 0 <= i < |tail| && Lower(tail[i].path) == Lower(r.path);
      assert Lower(all[0].path) == Lower(all[i+1].path);
    } else {
      assert forall i | 0 <= i < |tail| :: tail[i] in tail && Lower(tail[i].path) in LowerPaths(tail);
    }
    if RecordCaseDistinct(all) {
      forall i, j | 0 <= i < j < |tail| ensures Lower(tail[i].path) != Lower(tail[j].path) {
        assert Lower(all[i+1].path) != Lower(all[j+1].path);
      }
    }
  }

  /** Records collide, ignoring case, exactly when two kept files of the plan do. */
  lemma {:induction false} RecordsDistinctIff(plan: seq<FilePlan>, keep: FilePlan -> bool)
    ensures RecordCaseDistinct(Records(plan, keep)) <==> KeptCaseDistinct(plan, keep)
  {
    if plan != [] {
      var f, rest := plan[0], plan[1..];
      var tail := Records(rest, keep);
      assert Records(plan, keep) == if keep(f) then [ManifestRecord(f)] + tail else tail;
      RecordsDistinctIff(rest, keep);
      KeptConsIff(plan, keep);
      hide Records, KeptCaseDistinct, Lower;
      if keep(f) {
        ConsCaseDistinct(ManifestRecord(f), tail);
        RecordedIff(rest, keep, f.path);
      }
    }
  }

  ghost predicate KeptElsewhere(plan: seq<FilePlan>, keep: FilePlan -> bool, p: Path) {
    exists i | 0 <= i < |plan| :: keep(plan[i]) && Lower(plan[i].path) == Lower(p)
  }

  lemma RecordedIff(plan: seq<FilePlan>, keep: FilePlan -> bool, p: Path)
    ensures Lower(p) in LowerPaths(Records(plan, keep)) <==> KeptElsewhere(plan, keep, p)
  {
    RecordsAre(plan, keep);
    hide Records, Lower;
    if Lower(p) in LowerPaths(Records(plan, keep)) {
      var r :| r in Records(plan, keep) && Lower(r.path) == Lower(p);
      var i :| 0 <= i < |plan| && keep(plan[i]) && r == ManifestRecord(plan[i]);
    }
    if KeptElsewhere(plan, keep, p) {
      var i :| 0 <= i < |plan| && keep(plan[i]) && Lower(plan[i].path) == Lower(p);
      assert ManifestRecord(plan[i]) in Records(plan, keep);
    }
  }

  lemma KeptConsIff(plan: seq<FilePlan>, keep: FilePlan -> bool)
    requires plan != []
    ensures KeptCaseDistinct(plan, keep) <==>
      KeptCaseDistinct(plan[1..], keep) && (keep(plan[0]) ==> !KeptElsewhere(plan[1..], keep, plan[0].path))
  {
    var rest := plan[1..];
    hide Lower;
    assert forall i | 0 < i < |plan| :: plan[i] == rest[i-1];
    if KeptCaseDistinct(plan, keep) {
      forall i, j | 0 <= i < j < |rest| && keep(rest[i]) && keep(rest[j]) ensures Lower(rest[i].path) != Lower(rest[j].path) {
        assert plan[i+1] == rest[i] && plan[j+1] == rest[j];
      }
      forall i | 0 <= i < |rest| && keep(plan[0]) && keep(rest[i]) ensures Lower(rest[i].path) != Lower(plan[0].path) {
        assert plan[i+1] == rest[i];
      }
    }
    if KeptCaseDistinct(rest, keep) && (keep(plan[0]) ==> !KeptElsewhere(rest, keep, plan[0].path)) {
      forall i, j | 0 <= i < j < |plan| && keep(plan[i]) && keep(plan[j]) ensures Lower(plan[i].path) != Lower(plan[j].path) {
        assert plan[j] == rest[j-1];
        if i > 0 { assert plan[i] == rest[i-1]; }
      }
    }
  }

  ghost predicate PlanChecks(codec: Codec, plan: seq<FilePlan>) {
    forall i | 0 <= i < |plan| :: codec.validPath(plan[i].path) && codec.isChecksum(plan[i].checksum)
  }

  /** A manifest that gained the records of newly added files still passes its own compatibility check,
      keeps every old record at its place, and gains exactly one record for each added path that had none. */
  lemma MergedManifestIsCompatible(codec: Codec, sc: Scaffold, m: Manifest, plan: seq<FilePlan>)
    requires Compatible(codec, sc, m) && PlanCaseDistinct(plan) && PlanChecks(codec, plan)
    ensures Compatible(codec, sc, m.(files := m.files + Records(plan, NewlyAdded(m.files))))
  {
    var keep := NewlyAdded(m.files);
    var added := Records(plan, keep);
    var files := m.files + added;
    RecordsAre(plan, keep);
    RecordsDistinctIff(plan, keep);
    forall i | 0 <= i < |added| ensures codec.validPath(added[i].path) && codec.isChecksum(added[i].checksum) && Lower(added[i].path) !in LowerPaths(m.files) {
      assert added[i] in added;
    }
    forall i, j | 0 <= i < j < |files| ensures Lower(files[i].path) != Lower(files[j].path) {
      if i < |m.files| <= j {
        assert files[i] in m.files;
        assert Lower(files[i].path) in LowerPaths(m.files);
      }
    }
  }

  ghost predicate KeptValid(codec: Codec, plan: seq<FilePlan>, keep: FilePlan -> bool) {
    forall i | 0 <= i < |plan| && keep(plan[i]) :: codec.validPath(plan[i].path)
  }

  lemma RecordsValidIff(codec: Codec, plan: seq<FilePlan>, keep: FilePlan -> bool)
    ensures (forall r | r in Records(plan, keep) :: codec.validPath(r.path)) <==> KeptValid(codec, plan, keep)
  {
    RecordsAre(plan, keep);
    if forall r | r in Records(plan, keep) :: codec.validPath(r.path) {
      forall i | 0 <= i < |plan| && keep(plan[i]) ensures codec.validPath(plan[i].path) {
        assert ManifestRecord(plan[i]) in Records(plan, keep);
      }
    }
  }

  /** The first manifest a repository gets passes the compatibility check exactly when the files it
      records have usable paths and no two of them are equal when case is ignored. The archive loader
      rejects only exact duplicates, so the condition is the scaffold's to meet. */
  lemma FreshManifestCompatibleIff(codec: Codec, sc: Scaffold, plan: seq<FilePlan>, now: string)
    requires forall i | 0 <= i < |plan| :: codec.isChecksum(plan[i].checksum)
    ensures Compatible(codec, sc, FreshManifest(sc, plan, now)) <==>
      KeptValid(codec, plan, NotConflicted()) && KeptCaseDistinct(plan, NotConflicted())
  {
    var files := Records(plan, NotConflicted());
    RecordsValidIff(codec, plan, NotConflicted());
    RecordsDistinctIff(plan, NotConflicted());
    RecordsAre(plan, NotConflicted());
    hide Records, Lower, KeptValid, KeptCaseDistinct;
    CompatibleFilesIff(codec, files);
  }

  lemma CompatibleFilesIff(codec: Codec, files: seq<ManifestFile>)
    requires forall r | r in files :: codec.isChecksum(r.checksum)
    ensures CompatibleFiles(codec, files) <==> (forall r | r in files :: codec.validPath(r.path)) && RecordCaseDistinct(files)
  {
    assert forall i | 0 <= i < |files| :: files[i] in files;
  }
}
