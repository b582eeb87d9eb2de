/** Planning and applying as one call, and what a second call finds. */
module ScaffoldPlanning {
  import opened Prelude
  import opened ScaffoldModel
  import opened ScaffoldCrash
  import opened ScaffoldTransaction

  /** The manifest, if there is one, can be read and belongs to this scaffold. */
  ghost predicate Usable(codec: Codec, sc: Scaffold, d: Disk) {
    && ManifestAt(d).Ok?
    && (ManifestAt(d).value.Some? ==>
          var m := codec.parseManifest(ManifestAt(d).value.value);
          m.Some? && Compatible(codec, sc, m.value))
  }

  /** The lower-case paths that have a record. */
  function ManagedPaths(codec: Codec, d: Disk): set<Path> {
    if ManifestAt(d).Ok? && ManifestAt(d).value.Some? && codec.parseManifest(ManifestAt(d).value.value).Some?
    then LowerPaths(codec.parseManifest(ManifestAt(d).value.value).value.files)
    else {}
  }

  /** The plan for a disk nobody else changes. */
  function PlanOn(codec: Codec, sc: Scaffold, d: Disk): seq<FilePlan> {
    seq(|sc.files|, i requires 0 <= i < |sc.files| =>
      FilePlan(sc.files[i].path, sc.files[i].kind, codec.hash(sc.files[i].content),
               StatusOf(d, sc.files[i], ManagedPaths(codec, d))))
  }

  ghost predicate WrittenOverNothing(codec: Codec, e: Effect, listed: seq<JournalFile>, sc: Scaffold) {
    Harmless(codec, e, listed) || Harmless(codec, e, JournalFiles(codec, sc.files))
  }

  /** What a call with `shouldApply` promises when nobody interferes: `start` is the disk it found, `t`
      the transaction planned on the disk recovery makes of it. */
  ghost predicate AppliedFrom(codec: Codec, start: Disk, t: Transaction, d: Disk, log: seq<Effect>, from: nat,
                              ok: bool, reliable: bool)
  {
    && t.before == RecoverDisk(codec, start)
    && Sound(codec, t) && Untouched(t, t.before)
    && (forall i | from <= i < |log| :: Settled(t, RecoverDisk(codec, log[i].after)))
    && Settled(t, RecoverDisk(codec, d))
    && (Midway(codec, t, d) || (Within(d, start) && RecoverDisk(codec, d) == t.before))
    && (ok ==> Midway(codec, t, d) && Committed(t, d) && Grown(t.before, d) && (JOURNAL in d ==> d[JOURNAL].File?))
    && (ok && reliable ==> JOURNAL !in d)
    && (!ok && reliable && Recoverable(codec, start) ==> FileAt(d, JOURNAL) == None && Untouched(t, d))
  }

  /** A usable manifest, no stray entries, and a journal that can be read if there is one. */
  ghost predicate CanStart(codec: Codec, sc: Scaffold, d: Disk) {
    && Usable(codec, sc, d) && WellFormed(d) && SaneJournal(codec, d)
    && (JOURNAL in d ==> JournalAt(codec, d).Some?)
  }

  /** There is no journal, or one that this scaffold's own transactions write. */
  ghost predicate OwnJournal(codec: Codec, sc: Scaffold, d: Disk) {
    JOURNAL in d ==> exists t: Transaction :: IsOwnJournal(codec, sc, d, t)
  }

  ghost predicate IsOwnJournal(codec: Codec, sc: Scaffold, d: Disk, t: Transaction) {
    JournalIs(codec, d, t) && forall f | f in t.files :: f in sc.files
  }

  /** The same files, the journal aside. */
  ghost predicate SameFiles(d: Disk, d': Disk) {
    forall p | p != JOURNAL :: FileAt(d', p) == FileAt(d, p)
  }

  /** The disk is one a successful apply left behind, with its journal or without. */
  ghost predicate AlreadyApplied(codec: Codec, sc: Scaffold, d: Disk) {
    exists before: Disk, now: string :: AppliedTo(codec, sc, before, now, d)
  }

  ghost predicate AppliedTo(codec: Codec, sc: Scaffold, before: Disk, now: string, d: Disk) {
    && codec.Lawful() && GoodScaffold(codec, sc) && WellFormed(before) && JOURNAL !in before && Usable(codec, sc, before)
    && var t := PlannedTransaction(codec, sc, before, now);
       Midway(codec, t, d) && Committed(t, d) && Grown(before, d) && (JOURNAL in d ==> d[JOURNAL].File?)
  }

  /** The lower-case paths that have a record in a manifest that belongs to this scaffold. */
  method ReadManaged(repo: Repository, sc: Scaffold) returns (r: Result<set<Path>, Error>)
    requires repo.Linked()
    modifies repo`disk, repo`history
    ensures repo.Linked() && old(repo.history) <= repo.history
    ensures repo.journalKept ==> SameJournal(old(repo.disk), repo.disk)
    ensures repo.quiet ==> repo.disk == old(repo.disk)
    ensures repo.quiet && r.Ok? ==> Usable(repo.codec, sc, repo.disk) && r.value == ManagedPaths(repo.codec, repo.disk)
    ensures repo.quiet && repo.reliable && Usable(repo.codec, sc, repo.disk) ==> r.Ok?
  {
    var read := repo.ReadManifest();
    if read.Err? { return Err(read.error); }
    if read.value.None? { return Ok({}); }
    var parsed := ParseCompatible(repo.codec, sc, read.value.value);
    if parsed.Err? { return Err(parsed.error); }
    return Ok(LowerPaths(parsed.value.files));
  }

  /** Plans the scaffold on the disk and, if asked to, recovers first and applies the plan. */
  method CreatePlan(repo: Repository, sc: Scaffold, shouldApply: bool, now: string)
    returns (r: Result<Plan, Error>, ghost listed: seq<JournalFile>)
    requires repo.codec.Lawful() && GoodScaffold(repo.codec, sc) && repo.Linked()
    modifies repo
    ensures repo.Linked() && old(repo.history) <= repo.history
    ensures old(repo.effects) <= repo.effects
    ensures WrittenSince(repo.codec, repo.effects, |old(repo.effects)|, listed, sc)
    ensures listed != [] ==> ReadSince(repo.codec, repo.history, |old(repo.history)| - 1, listed)
    ensures repo.journalKept && OwnJournal(repo.codec, sc, old(repo.disk)) ==>
      OwnContentSince(repo.effects, |old(repo.effects)|, sc.files)
    ensures repo.quiet && shouldApply && CanStart(repo.codec, sc, old(repo.disk)) && r.Ok? ==> AlreadyApplied(repo.codec, sc, repo.disk)
    ensures repo.quiet && AlreadyApplied(repo.codec, sc, old(repo.disk)) ==> SameFiles(old(repo.disk), repo.disk)
    ensures !shouldApply ==> repo.effects == old(repo.effects) && (repo.quiet ==> repo.disk == old(repo.disk))
    ensures repo.quiet && !Usable(repo.codec, sc, old(repo.disk)) ==>
      r.Err? && repo.effects == old(repo.effects) && repo.disk == old(repo.disk)
    ensures repo.quiet && !shouldApply && r.Ok? ==>
      CountsAreRight(r.value) && (WellFormed(old(repo.disk)) ==> PlanMeans(repo.codec, sc, old(repo.disk), r.value.files))
    ensures repo.quiet && shouldApply && CanStart(repo.codec, sc, old(repo.disk)) && r.Ok? ==>
      CountsAreRight(r.value) && AppliedPlanMeans(repo.codec, sc, RecoverDisk(repo.codec, old(repo.disk)), r.value.files)
    ensures repo.quiet && repo.reliable && shouldApply && CanStart(repo.codec, sc, old(repo.disk)) && Recoverable(repo.codec, old(repo.disk)) ==>
      r.Ok?
    ensures repo.quiet && repo.reliable && !shouldApply && Usable(repo.codec, sc, old(repo.disk)) ==> r.Ok?
    ensures repo.quiet && shouldApply && CanStart(repo.codec, sc, old(repo.disk)) ==>
      && Usable(repo.codec, sc, RecoverDisk(repo.codec, old(repo.disk)))
      && AppliedFrom(repo.codec, old(repo.disk), PlannedTransaction(repo.codec, sc, RecoverDisk(repo.codec, old(repo.disk)), now),
                     repo.disk, repo.effects, |old(repo.effects)|, r.Ok?, repo.reliable)
  {
    ghost var start := repo.disk;
    ghost var active := repo.quiet && shouldApply && CanStart(repo.codec, sc, start);
    ghost var t := Transaction(RecoverDisk(repo.codec, start), [], "");
    if active { t := PlannedAfterRecovery(repo.codec, sc, start, now); }
    AppliedCanStart(repo.codec, sc, start);
    LinkedLast(repo.history, repo.effects, repo.disk, repo.quiet);
    if WellFormed(start) { PlanOnMeans(repo.codec, sc, start); }
    hide PlanMeans, AppliedPlanMeans, Recoverable, WellFormed;
    hide AlreadyApplied, OwnJournal, OwnContentSince, IsLinked, Lists;
    hide Usable, CanStart, GoodScaffold, ManagedPaths, PlanOn, Sound, Untouched, WrittenSince, HarmlessSince, CountsAreRight,
      AppliedFrom, RecoverDisk, PlannedTransaction, StatusOf;
    listed := [];
    var managed := ReadManaged(repo, sc);
    if managed.Err? {
      if active { NotApplied(repo.codec, start, t, repo.disk, repo.effects, |repo.effects|, repo.reliable); }
      return Err(managed.error), listed;
    }
    if shouldApply {
      OwnJournalStays(repo.codec, sc, start, repo.disk, repo.journalKept);
      r, listed := RecoverAndApply(repo, sc, managed.value, now, t, active);
      if active {
        AppliedFromMeans(repo.codec, sc, start, now, t, repo.disk, repo.effects, |old(repo.effects)|, r.Ok?, repo.reliable);
      }
    } else {
      r := repo.PlanFiles(sc, managed.value);
      if r.Ok? { PlannedAsOn(repo.codec, sc, start, r.value, repo.quiet); }
    }
  }

  /** The part of `CreatePlan` that writes. */
  method RecoverAndApply(repo: Repository, sc: Scaffold, managed: set<Path>, now: string, ghost t: Transaction, ghost active: bool)
    returns (r: Result<Plan, Error>, ghost listed: seq<JournalFile>)
    requires repo.codec.Lawful() && GoodScaffold(repo.codec, sc)
    requires active ==> repo.quiet && CanStart(repo.codec, sc, repo.disk) && managed == ManagedPaths(repo.codec, repo.disk)
    requires active ==> PlannedFrom(repo.codec, sc, repo.disk, now, t)
    requires repo.Linked()
    modifies repo
    ensures repo.Linked() && old(repo.history) <= repo.history
    ensures old(repo.effects) <= repo.effects
    ensures WrittenSince(repo.codec, repo.effects, |old(repo.effects)|, listed, sc)
    ensures listed != [] ==> ReadSince(repo.codec, repo.history, |old(repo.history)| - 1, listed)
    ensures repo.journalKept && OwnJournal(repo.codec, sc, old(repo.disk)) ==>
      OwnContentSince(repo.effects, |old(repo.effects)|, sc.files)
    ensures active ==> AppliedFrom(repo.codec, old(repo.disk), t, repo.disk, repo.effects, |old(repo.effects)|, r.Ok?, repo.reliable)
    ensures active && r.Ok? ==>
      CountsAreRight(r.value) && AppliedPlanMeans(repo.codec, sc, RecoverDisk(repo.codec, old(repo.disk)), r.value.files)
    ensures active && repo.reliable && Recoverable(repo.codec, old(repo.disk)) ==> r.Ok?
  {
    ghost var start := repo.disk;
    hide CanStart, PlannedFrom, Usable, GoodScaffold, ManagedPaths, Sound, Untouched, WrittenSince, HarmlessSince,
      AppliedFrom, RecoverDisk, RecoversSince, Applied, Recoverable, IsLinked, OwnJournal, OwnContentSince, Lists, ReadSince,
      CountsAreRight, AppliedPlanMeans;
    var recovered;
    recovered, listed := RecoverFirst(repo, sc, active);
    if recovered.Fail? {
      if active { NotAppliedFrom(repo.codec, sc, start, now, t, repo.disk, repo.effects, |old(repo.effects)|, repo.reliable); }
      return Err(recovered.error), listed;
    }
    label recovered:
    r := PlanAndApply(repo, sc, managed, now, start, t, active);
    ApplyWrites(repo.codec, old@recovered(repo.effects), repo.effects, |old(repo.effects)|, listed, sc);
    ApplyIsOwn(repo.codec, sc, start, old@recovered(repo.effects), repo.effects, |old(repo.effects)|, repo.journalKept);
    if active {
      AppliedAfterRecovery(repo.codec, sc, start, now, t, repo.disk, old@recovered(repo.effects), repo.effects,
                           |old(repo.effects)|, r.Ok?, repo.reliable);
    }
  }

  /** Planning on the recovered disk, and applying what was planned. */
  method PlanAndApply(repo: Repository, sc: Scaffold, managed: set<Path>, now: string, ghost start: Disk, ghost t: Transaction, ghost active: bool)
    returns (r: Result<Plan, Error>)
    requires repo.codec.Lawful() && GoodScaffold(repo.codec, sc)
    requires active ==> repo.quiet && CanStart(repo.codec, sc, start) && managed == ManagedPaths(repo.codec, start)
    requires active ==> PlannedFrom(repo.codec, sc, start, now, t) && repo.disk == RecoverDisk(repo.codec, start)
    requires repo.Linked()
    modifies repo
    ensures repo.Linked() && old(repo.history) <= repo.history && old(repo.effects) <= repo.effects
    ensures HarmlessSince(repo.codec, repo.effects, |old(repo.effects)|, JournalFiles(repo.codec, sc.files))
    ensures active ==>
      || Applied(repo.codec, t, repo.disk, repo.effects, |old(repo.effects)|, r.Ok?, repo.reliable)
      || (r.Err? && !repo.reliable && repo.effects == old(repo.effects) && repo.disk == old(repo.disk))
    ensures active && r.Ok? ==> CountsAreRight(r.value) && AppliedPlanMeans(repo.codec, sc, old(repo.disk), r.value.files)
    ensures active && repo.reliable ==> r.Ok?
  {
    if active {
      PlanIsReady(repo.codec, sc, start);
      PlanOnMeans(repo.codec, sc, repo.disk);
    }
    hide AppliedPlanMeans, PlanMeans, CommittedFiles;
    hide Usable, GoodScaffold, ManagedPaths, PlanOn, HarmlessSince, CountsAreRight, CanStart,
      RecoverDisk, StatusOf, Applied, WellFormed, Ready, IsLinked;
    var plan := repo.PlanFiles(sc, managed);
    if plan.Err? { return Err(plan.error); }
    if active { PlannedAsOn(repo.codec, sc, repo.disk, plan.value, true); }
    label planned:
    r := repo.Apply(sc, plan.value, now, None);
    HarmlessForAllSince(repo.codec, repo.effects, |old@planned(repo.effects)|, sc.files, plan.value.files);
    if r.Ok? { CommittedCounts(plan.value); }
  }

  lemma HarmlessForAllSince(codec: Codec, log: seq<Effect>, from: nat, files: seq<ScaffoldFile>, plan: seq<FilePlan>)
    requires HarmlessSince(codec, log, from, JournalFiles(codec, MissingFiles(files, plan)))
    ensures HarmlessSince(codec, log, from, JournalFiles(codec, files))
  {
    hide Harmless;
    forall i | from <= i < |log| ensures Harmless(codec, log[i], JournalFiles(codec, files)) {
      HarmlessForAll(codec, log[i], files, plan);
    }
  }

  lemma NotAppliedFrom(codec: Codec, sc: Scaffold, start: Disk, now: string, t: Transaction, d: Disk, log: seq<Effect>, from: nat, reliable: bool)
    requires PlannedFrom(codec, sc, start, now, t) && RecoversSince(codec, log, from, start, d)
    requires RecoverDisk(codec, d) == RecoverDisk(codec, start) && !(reliable && Recoverable(codec, start))
    ensures AppliedFrom(codec, start, t, d, log, from, false, reliable)
  {
    hide Usable, PlannedTransaction, RecoversSince, RecoverDisk, Recoverable, AppliedFrom, Sound, Untouched;
    NotApplied(codec, start, t, d, log, from, reliable);
  }

  /** Recovery, and what it is in terms of the scaffold. */
  method RecoverFirst(repo: Repository, sc: Scaffold, ghost active: bool)
    returns (r: Outcome<Error>, ghost listed: seq<JournalFile>)
    requires active ==> repo.quiet && CanStart(repo.codec, sc, repo.disk)
    requires repo.Linked()
    modifies repo
    ensures repo.Linked() && old(repo.history) <= repo.history && old(repo.effects) <= repo.effects
    ensures WrittenSince(repo.codec, repo.effects, |old(repo.effects)|, listed, sc)
    ensures listed != [] ==> ReadSince(repo.codec, repo.history, |old(repo.history)| - 1, listed)
    ensures repo.journalKept && OwnJournal(repo.codec, sc, old(repo.disk)) ==>
      OwnContentSince(repo.effects, |old(repo.effects)|, sc.files)
    ensures active ==>
      && RecoversSince(repo.codec, repo.effects, |old(repo.effects)|, old(repo.disk), repo.disk)
      && RecoverDisk(repo.codec, repo.disk) == RecoverDisk(repo.codec, old(repo.disk))
      && (r.Pass? ==> repo.disk == RecoverDisk(repo.codec, old(repo.disk)))
      && (repo.reliable && Recoverable(repo.codec, old(repo.disk)) ==> r.Pass?)
  {
    ghost var start := repo.disk;
    hide IsLinked, OwnJournal, IsOwnJournal, OwnContentSince, JournalIs, WrittenSince, HarmlessSince, RecoverDisk, Recoverable,
      SaneJournal, ReadSince, RecoveryEffect;
    r, listed := repo.Recover();
    if repo.effects == old(repo.effects) { listed := []; }
    RecoveredOwn(repo.codec, sc, start, repo.effects, |old(repo.effects)|, repo.journalKept);
    RecoveryWrites(repo.codec, repo.effects, |old(repo.effects)|, listed, sc);
  }

  ghost predicate PlannedFrom(codec: Codec, sc: Scaffold, start: Disk, now: string, t: Transaction) {
    && t.before == RecoverDisk(codec, start) && Usable(codec, sc, t.before)
    && t == PlannedTransaction(codec, sc, t.before, now)
    && Sound(codec, t) && Untouched(t, t.before)
  }

  lemma PlannedAfterRecovery(codec: Codec, sc: Scaffold, start: Disk, now: string) returns (t: Transaction)
    requires codec.Lawful() && GoodScaffold(codec, sc) && CanStart(codec, sc, start)
    ensures PlannedFrom(codec, sc, start, now, t)
  {
    PlanIsReady(codec, sc, start);
    var fixed := RecoverDisk(codec, start);
    t := PlannedTransaction(codec, sc, fixed, now);
    TransactionIsSound(codec, sc, PlanOn(codec, sc, fixed), fixed, now);
    StartIsMidway(codec, t);
  }

  ghost function PlannedTransaction(codec: Codec, sc: Scaffold, d: Disk, now: string): Transaction
    requires Usable(codec, sc, d)
  {
    PlanOnIsFor(codec, sc, d);
    TransactionFor(codec, sc, PlanOn(codec, sc, d), d, now)
  }

  lemma PlanOnIsFor(codec: Codec, sc: Scaffold, d: Disk)
    requires Usable(codec, sc, d)
    ensures PlanFor(codec, sc, PlanOn(codec, sc, d)) && Unmanaged(codec, sc, PlanOn(codec, sc, d), ManifestAt(d).value)
  {
  }

  lemma PlannedAsOn(codec: Codec, sc: Scaffold, d: Disk, plan: Plan, quiet: bool)
    requires PlanFor(codec, sc, plan.files)
    requires quiet ==> forall i | 0 <= i < |sc.files| :: plan.files[i].status == StatusOf(d, sc.files[i], ManagedPaths(codec, d))
    ensures quiet ==> plan.files == PlanOn(codec, sc, d)
  {
  }

  /** Recovery leaves the manifest alone and its disk is ready for the plan made on it. */
  lemma PlanIsReady(codec: Codec, sc: Scaffold, start: Disk)
    requires codec.Lawful() && CanStart(codec, sc, start)
    ensures var d := RecoverDisk(codec, start);
      && Usable(codec, sc, d) && ManagedPaths(codec, d) == ManagedPaths(codec, start)
      && WellFormed(d) && PlanFor(codec, sc, PlanOn(codec, sc, d))
      && Ready(codec, sc, PlanOn(codec, sc, d), d)
  {
    var d := RecoverDisk(codec, start);
    RecoveryKeepsTheRest(codec, start);
    PlanOnIsFor(codec, sc, d);
    var plan := PlanOn(codec, sc, d);
    forall f | f in sc.files && PlannedMissing(plan, f.path) ensures Inspect(d, f.path, f.content) == Missing {
      var i :| 0 <= i < |plan| && plan[i].path == f.path && plan[i].status == Missing;
      assert Inspect(d, sc.files[i].path, sc.files[i].content) == Missing;
    }
  }

  lemma RecoveryKeepsTheRest(codec: Codec, start: Disk)
    requires WellFormed(start) && SaneJournal(codec, start) && (JOURNAL in start ==> JournalAt(codec, start).Some?)
    ensures var d := RecoverDisk(codec, start);
      && WellFormed(d) && JOURNAL !in d && RecoverDisk(codec, d) == d
      && ManifestAt(d) == ManifestAt(start)
  {
    var d := RecoverDisk(codec, start);
    forall p | p in start && (start[p].Directory? || (p != JOURNAL && !Outside(p))) ensures p in d && d[p] == start[p] {
      assert JOURNAL in start ==> start[JOURNAL].File?;
    }
    assert forall p | p in d :: p in start && d[p] == start[p];
    forall p | p in d ensures HasParent(d, p) {
      assert p in start && HasParent(start, p);
    }
    assert MANIFEST[..1] == SSEALED;
    assert JournalAt(codec, d) == None;
    assert SSEALED in start <==> SSEALED in d;
  }

  // ---------------------------------------------------------------- steps of the proof of CreatePlan

  ghost predicate WrittenSince(codec: Codec, log: seq<Effect>, from: nat, listed: seq<JournalFile>, sc: Scaffold) {
    forall i | from <= i < |log| :: WrittenOverNothing(codec, log[i], listed, sc)
  }

  lemma RecoveryWrites(codec: Codec, log: seq<Effect>, from: nat, listed: seq<JournalFile>, sc: Scaffold)
    requires HarmlessSince(codec, log, from, listed)
    ensures WrittenSince(codec, log, from, listed, sc)
  {
  }

  lemma ApplyWrites(codec: Codec, log: seq<Effect>, log': seq<Effect>, from: nat, listed: seq<JournalFile>, sc: Scaffold)
    requires log <= log' && WrittenSince(codec, log, from, listed, sc)
    requires HarmlessSince(codec, log', |log|, JournalFiles(codec, sc.files))
    ensures WrittenSince(codec, log', from, listed, sc)
  {
    forall i | from <= i < |log'| ensures WrittenOverNothing(codec, log'[i], listed, sc) {
      if i < |log| { assert log'[i] == log[i]; }
    }
  }

  lemma OwnJournalStays(codec: Codec, sc: Scaffold, d: Disk, d': Disk, kept: bool)
    requires kept ==> SameJournal(d, d')
    ensures kept && OwnJournal(codec, sc, d) ==> OwnJournal(codec, sc, d')
  {
    if kept && OwnJournal(codec, sc, d) && JOURNAL in d {
      var t: Transaction :| IsOwnJournal(codec, sc, d, t);
      assert IsOwnJournal(codec, sc, d', t);
    }
  }

  /** What recovery removes under a journal of this scaffold has the scaffold's content. */
  lemma RecoveredOwn(codec: Codec, sc: Scaffold, d: Disk, log: seq<Effect>, from: nat, kept: bool)
    requires kept ==> forall t: Transaction | JournalIs(codec, d, t) :: OwnContentSince(log, from, t.files)
    requires kept && JOURNAL !in d ==> from >= |log|
    ensures kept && OwnJournal(codec, sc, d) ==> OwnContentSince(log, from, sc.files)
  {
    if kept && OwnJournal(codec, sc, d) && JOURNAL in d {
      var t: Transaction :| IsOwnJournal(codec, sc, d, t);
      assert OwnContentSince(log, from, t.files);
      forall i | from <= i < |log| ensures OwnContent(log[i], sc.files) {
        OwnWithMore(log[i], t.files, sc.files);
      }
    }
  }

  lemma OwnWithMore(e: Effect, some: seq<ScaffoldFile>, all: seq<ScaffoldFile>)
    requires OwnContent(e, some) && forall f | f in some :: f in all
    ensures OwnContent(e, all)
  {
    forall p | p in e.before && IsContent(some, p, e.before[p]) ensures IsContent(all, p, e.before[p]) {
      var i :| 0 <= i < |some| && some[i].path == p && e.before[p] == File(some[i].content);
      assert some[i] in all;
      var k :| 0 <= k < |all| && all[k] == some[i];
    }
  }

  lemma ApplyIsOwn(codec: Codec, sc: Scaffold, d: Disk, log: seq<Effect>, log': seq<Effect>, from: nat, kept: bool)
    requires codec.Lawful() && from <= |log| && log <= log'
    requires kept && OwnJournal(codec, sc, d) ==> OwnContentSince(log, from, sc.files)
    requires HarmlessSince(codec, log', |log|, JournalFiles(codec, sc.files))
    ensures kept && OwnJournal(codec, sc, d) ==> OwnContentSince(log', from, sc.files)
  {
    if kept && OwnJournal(codec, sc, d) {
      hide OwnContent, Harmless;
      forall i | from <= i < |log'| ensures OwnContent(log'[i], sc.files) {
        if i < |log| {
          assert log'[i] == log[i];
        } else {
          HarmlessIsOwn(codec, log'[i], sc.files);
        }
      }
    }
  }

  lemma HarmlessForAll(codec: Codec, e: Effect, files: seq<ScaffoldFile>, plan: seq<FilePlan>)
    requires Harmless(codec, e, JournalFiles(codec, MissingFiles(files, plan)))
    ensures Harmless(codec, e, JournalFiles(codec, files))
  {
    var some, all := JournalFiles(codec, MissingFiles(files, plan)), JournalFiles(codec, files);
    MissingFilesAre(files, plan);
    forall p | Removable(codec, e.before, some, p) ensures Removable(codec, e.before, all, p) {
      var i :| 0 <= i < |some| && some[i].path == p && Matches(codec, e.before, some[i]);
      var f := MissingFiles(files, plan)[i];
      assert f in MissingFiles(files, plan);
      var k :| 0 <= k < |files| && files[k] == f;
      assert all[k] == some[i];
    }
  }

  lemma NotApplied(codec: Codec, start: Disk, t: Transaction, d: Disk, log: seq<Effect>, from: nat, reliable: bool)
    requires t.before == RecoverDisk(codec, start) && Sound(codec, t) && Untouched(t, t.before)
    requires (from == |log| && d == start) || RecoversSince(codec, log, from, start, d)
    requires RecoverDisk(codec, d) == t.before
    requires !(reliable && Recoverable(codec, start))
    ensures AppliedFrom(codec, start, t, d, log, from, false, reliable)
  {
  }

  lemma AppliedAfterRecovery(codec: Codec, sc: Scaffold, start: Disk, now: string, t: Transaction, d: Disk,
                             log: seq<Effect>, log': seq<Effect>, from: nat, ok: bool, reliable: bool)
    requires codec.Lawful() && PlannedFrom(codec, sc, start, now, t)
    requires log <= log' && RecoversSince(codec, log, from, start, RecoverDisk(codec, start))
    requires || Applied(codec, t, d, log', |log|, ok, reliable)
             || (!ok && !reliable && log' == log && d == RecoverDisk(codec, start))
    ensures AppliedFrom(codec, start, t, d, log', from, ok, reliable)
  {
    hide Usable, PlannedTransaction, Midway, Untouched, Committed, Grown, RecoverDisk, RecoveryEffect, Recoverable;
    if Applied(codec, t, d, log', |log|, ok, reliable) {
      forall i | from <= i < |log'| ensures Settled(t, RecoverDisk(codec, log'[i].after)) {
        if i < |log| {
          assert log'[i] == log[i];
        } else {
          RecoverySettles(codec, t, log'[i].after);
        }
      }
      RecoverySettles(codec, t, d);
    } else {
      hide AppliedFrom, RecoversSince;
      RecoversToItself(codec, log, from, start, d);
      NotApplied(codec, start, t, d, log, from, reliable);
    }
  }

  lemma RecoversToItself(codec: Codec, log: seq<Effect>, from: nat, start: Disk, d: Disk)
    requires RecoversSince(codec, log, from, start, d)
    ensures RecoverDisk(codec, d) == RecoverDisk(codec, start)
  {
  }

  // ---------------------------------------------------------------- what the published manifest records

  /** The plan made on a disk that is ready for it. */
  ghost predicate Planned(codec: Codec, sc: Scaffold, d: Disk, now: string, t: Transaction) {
    && codec.Lawful() && GoodScaffold(codec, sc) && WellFormed(d) && JOURNAL !in d && Usable(codec, sc, d)
    && t == PlannedTransaction(codec, sc, d, now)
  }

  /** The lower-case paths stand for the records of the manifest on the disk. */
  lemma ManagedIff(codec: Codec, d: Disk, p: Path)
    requires WellFormed(d)
    ensures Lower(p) in ManagedPaths(codec, d) <==> Manages(codec, d, p)
  {
    ManifestAtMeans(d);
    hide Lower, ManifestAt, SamePath, WellFormed;
    if ManifestAt(d).Ok? && ManifestAt(d).value.Some? && codec.parseManifest(ManifestAt(d).value.value).Some? {
      HasRecordIff(codec.parseManifest(ManifestAt(d).value.value).value.files, p);
    }
  }

  /** A plan, file by file, in terms of the disk it was made on. */
  ghost predicate PlanMeans(codec: Codec, sc: Scaffold, d: Disk, plan: seq<FilePlan>) {
    |plan| == |sc.files| && forall i | 0 <= i < |plan| :: EntryMeans(codec, d, sc.files[i], plan[i], plan[i].status)
  }

  ghost predicate EntryMeans(codec: Codec, d: Disk, f: ScaffoldFile, plan: FilePlan, status: Status) {
    && plan.path == f.path && plan.kind == f.kind && plan.checksum == codec.hash(f.content)
    && StatusMeans(d, f, Manages(codec, d, f.path), status)
  }

  /** The plan an apply returns: what was missing is now called added. */
  ghost predicate AppliedPlanMeans(codec: Codec, sc: Scaffold, d: Disk, plan: seq<FilePlan>) {
    && |plan| == |sc.files|
    && forall i | 0 <= i < |plan| ::
         plan[i].status != Missing && EntryMeans(codec, d, sc.files[i], plan[i], if plan[i].status == Added then Missing else plan[i].status)
  }

  lemma PlanOnMeans(codec: Codec, sc: Scaffold, d: Disk)
    requires WellFormed(d)
    ensures PlanMeans(codec, sc, d, PlanOn(codec, sc, d)) && AppliedPlanMeans(codec, sc, d, CommittedFiles(PlanOn(codec, sc, d)))
  {
    var plan := PlanOn(codec, sc, d);
    hide Lower, ManagedPaths, Manages, StatusOf, WellFormed;
    forall i | 0 <= i < |plan| ensures EntryMeans(codec, d, sc.files[i], plan[i], plan[i].status) {
      ManagedIff(codec, d, sc.files[i].path);
      StatusOfMeans(d, sc.files[i], ManagedPaths(codec, d));
    }
  }

  /** A file is created exactly if nothing is in its place and no record in the manifest manages it: a
      managed file the user deleted stays deleted. */
  lemma CreatedExactlyIf(codec: Codec, sc: Scaffold, d: Disk, now: string, t: Transaction, i: nat)
    requires Planned(codec, sc, d, now, t) && i < |sc.files|
    ensures sc.files[i] in t.files <==> Vacant(d, sc.files[i].path) && !Manages(codec, d, sc.files[i].path)
  {
    hide Inspect, Vacant, Lower, Manages, ManagedPaths;
    CreatedIfPlanned(codec, sc, d, now, t, i);
    InspectMeans(d, sc.files[i].path, sc.files[i].content);
    ManagedIff(codec, d, sc.files[i].path);
  }

  lemma CreatedIfPlanned(codec: Codec, sc: Scaffold, d: Disk, now: string, t: Transaction, i: nat)
    requires Planned(codec, sc, d, now, t) && i < |sc.files|
    ensures sc.files[i] in t.files <==>
      Inspect(d, sc.files[i].path, sc.files[i].content) == Missing && Lower(sc.files[i].path) !in ManagedPaths(codec, d)
  {
    var plan := PlanOn(codec, sc, d);
    MissingFilesAre(sc.files, plan);
    if PlannedMissing(plan, sc.files[i].path) {
      var k :| 0 <= k < |plan| && plan[k].path == sc.files[i].path && plan[k].status == Missing;
      SamePathSameIndex(sc.files, k, i);
    } else {
      assert plan[i].path == sc.files[i].path;
    }
  }

  lemma SamePathSameIndex(files: seq<ScaffoldFile>, i: nat, k: nat)
    requires CaseDistinct(files) && i < |files| && k < |files| && Lower(files[i].path) == Lower(files[k].path)
    ensures i == k
  {
  }

  lemma PublishedManifestIsUsable(codec: Codec, sc: Scaffold, d: Disk, now: string, t: Transaction)
    requires Planned(codec, sc, d, now, t)
    ensures var m := codec.parseManifest(t.manifest); m.Some? && Compatible(codec, sc, m.value)
    ensures ManagedPaths(codec, d) <= LowerPaths(codec.parseManifest(t.manifest).value.files)
  {
    var plan := CommittedFiles(PlanOn(codec, sc, d));
    CommittedPlanDistinct(codec, sc, PlanOn(codec, sc, d));
    var existing := ManifestAt(d).value;
    hide GoodScaffold, Inspect, Lower, WellFormed, PlanOn, CommittedFiles, PlanFor, Compatible;
    if existing.None? {
      hide Records;
      FreshManifestCompatibleIff(codec, sc, plan, now);
    } else {
      var m := codec.parseManifest(existing.value).value;
      MergedManifestIsCompatible(codec, sc, m, plan);
      MorePaths(m.files, Records(plan, NewlyAdded(m.files)));
    }
  }

  lemma MorePaths(files: seq<ManifestFile>, added: seq<ManifestFile>)
    ensures LowerPaths(files) <= LowerPaths(files + added)
  {
    assert forall f | f in files :: f in files + added;
  }

  /** Into an existing manifest: every old record stays at its place, every created file gets a record
      with its own checksum, and nothing else gets one. That paths stay distinct, ignoring case, is part
      of being compatible. */
  lemma ManifestGainsTheCreated(codec: Codec, sc: Scaffold, d: Disk, now: string, t: Transaction)
    requires Planned(codec, sc, d, now, t) && ManifestAt(d).value.Some?
    ensures var m, m' := codec.parseManifest(ManifestAt(d).value.value).value, codec.parseManifest(t.manifest);
      && m'.Some? && m.files <= m'.value.files && m'.value == m.(files := m'.value.files)
      && Compatible(codec, sc, m'.value)
      && EachRecorded(codec, t.files, m'.value.files, |m.files|)
      && EachCreated(codec, t.files, m'.value.files, |m.files|)
  {
    MergedText(codec, sc, d, now, t);
    AllRecorded(codec, sc, d, now, t);
    AllCreatedHere(codec, sc, d, now, t);
    var m := codec.parseManifest(ManifestAt(d).value.value).value;
    var added := AddedRecords(codec, sc, d);
    hide *;
    Shifted(codec, t.files, m.files, added);
  }

  lemma Shifted(codec: Codec, created: seq<ScaffoldFile>, kept: seq<ManifestFile>, added: seq<ManifestFile>)
    requires EachRecorded(codec, created, added, 0) && EachCreated(codec, created, added, 0)
    ensures EachRecorded(codec, created, kept + added, |kept|) && EachCreated(codec, created, kept + added, |kept|)
  {
    var files := kept + added;
    forall f | f in created ensures IsRecorded(codec, f, files, |kept|) {
      assert IsRecorded(codec, f, added, 0);
      var k :| 0 <= k < |added| && IsRecordOf(codec, added[k], f);
      assert files[|kept| + k] == added[k];
    }
    forall k | |kept| <= k < |files| ensures IsOfOne(codec, files[k], created) {
      assert files[k] == added[k - |kept|];
      assert IsOfOne(codec, added[k - |kept|], created);
    }
  }

  lemma AllRecorded(codec: Codec, sc: Scaffold, d: Disk, now: string, t: Transaction)
    requires Planned(codec, sc, d, now, t) && ManifestAt(d).value.Some?
    ensures EachRecorded(codec, t.files, AddedRecords(codec, sc, d), 0)
  {
    var added := AddedRecords(codec, sc, d);
    hide Planned, AddedRecords;
    hide IsRecordOf;
    forall f | f in t.files ensures IsRecorded(codec, f, added, 0) {
      var k := CreatedIsRecorded(codec, sc, d, now, t, f);
    }
  }

  lemma AllCreatedHere(codec: Codec, sc: Scaffold, d: Disk, now: string, t: Transaction)
    requires Planned(codec, sc, d, now, t) && ManifestAt(d).value.Some?
    ensures EachCreated(codec, t.files, AddedRecords(codec, sc, d), 0)
  {
    var added := AddedRecords(codec, sc, d);
    hide Planned, AddedRecords;
    hide IsRecordOf;
    forall k | 0 <= k < |added| ensures IsOfOne(codec, added[k], t.files) {
      var f := RecordedIsCreated(codec, sc, d, now, t, k);
    }
  }

  ghost predicate EachRecorded(codec: Codec, created: seq<ScaffoldFile>, files: seq<ManifestFile>, from: nat) {
    forall f | f in created :: IsRecorded(codec, f, files, from)
  }

  ghost predicate IsRecorded(codec: Codec, f: ScaffoldFile, files: seq<ManifestFile>, from: nat) {
    exists k | from <= k < |files| :: IsRecordOf(codec, files[k], f)
  }

  ghost predicate EachCreated(codec: Codec, created: seq<ScaffoldFile>, files: seq<ManifestFile>, from: nat) {
    forall k | from <= k < |files| :: IsOfOne(codec, files[k], created)
  }

  predicate IsOfOne(codec: Codec, r: ManifestFile, files: seq<ScaffoldFile>) {
    exists f | f in files :: IsRecordOf(codec, r, f)
  }

  lemma RecordIsOf(codec: Codec, plan: FilePlan, f: ScaffoldFile)
    requires plan.path == f.path && plan.kind == f.kind && plan.checksum == codec.hash(f.content)
    ensures IsRecordOf(codec, ManifestRecord(plan), f)
  {
  }

  lemma MergedText(codec: Codec, sc: Scaffold, d: Disk, now: string, t: Transaction)
    requires Planned(codec, sc, d, now, t) && ManifestAt(d).value.Some?
    ensures var m := codec.parseManifest(ManifestAt(d).value.value).value;
      var m' := m.(files := m.files + AddedRecords(codec, sc, d));
      codec.parseManifest(t.manifest) == Some(m') && Compatible(codec, sc, m')
  {
    PublishedManifestIsUsable(codec, sc, d, now, t);
    var m := codec.parseManifest(ManifestAt(d).value.value).value;
    var added := AddedRecords(codec, sc, d);
    if added == [] { assert m.files + added == m.files; }
  }

  ghost function AddedRecords(codec: Codec, sc: Scaffold, d: Disk): seq<ManifestFile>
    requires Usable(codec, sc, d) && ManifestAt(d).value.Some?
  {
    Records(CommittedFiles(PlanOn(codec, sc, d)), NewlyAdded(codec.parseManifest(ManifestAt(d).value.value).value.files))
  }

  lemma CreatedIsRecorded(codec: Codec, sc: Scaffold, d: Disk, now: string, t: Transaction, f: ScaffoldFile) returns (k: nat)
    requires Planned(codec, sc, d, now, t) && ManifestAt(d).value.Some?
    requires f in t.files
    ensures var added := AddedRecords(codec, sc, d);
      k < |added| && IsRecordOf(codec, added[k], f)
  {
    var c := CommittedFiles(PlanOn(codec, sc, d));
    var m := codec.parseManifest(ManifestAt(d).value.value).value;
    var added := AddedRecords(codec, sc, d);
    RecordsAre(c, NewlyAdded(m.files));
    MissingFilesAre(sc.files, PlanOn(codec, sc, d));
    var i :| 0 <= i < |sc.files| && sc.files[i] == f;
    CreatedIfPlanned(codec, sc, d, now, t, i);
    hide Inspect, Records, Lower, WellFormed;
    assert NewlyAdded(m.files)(c[i]);
    assert ManifestRecord(c[i]) in added;
    k :| 0 <= k < |added| && added[k] == ManifestRecord(c[i]);
    RecordIsOf(codec, c[i], f);
  }

  lemma RecordedIsCreated(codec: Codec, sc: Scaffold, d: Disk, now: string, t: Transaction, k: nat) returns (f: ScaffoldFile)
    requires Planned(codec, sc, d, now, t) && ManifestAt(d).value.Some?
    requires k < |AddedRecords(codec, sc, d)|
    ensures f in t.files && IsRecordOf(codec, AddedRecords(codec, sc, d)[k], f)
  {
    var c := CommittedFiles(PlanOn(codec, sc, d));
    var m := codec.parseManifest(ManifestAt(d).value.value).value;
    var added := AddedRecords(codec, sc, d);
    RecordsAre(c, NewlyAdded(m.files));
    assert added[k] in added;
    var i :| 0 <= i < |c| && NewlyAdded(m.files)(c[i]) && added[k] == ManifestRecord(c[i]);
    CreatedIfPlanned(codec, sc, d, now, t, i);
    f := sc.files[i];
    RecordIsOf(codec, c[i], f);
  }

  /** The file is created, or is already there with the scaffold's content. */
  ghost predicate CreatedOrFound(d: Disk, f: ScaffoldFile) {
    Vacant(d, f.path) || FileAt(d, f.path) == Some(File(f.content))
  }

  predicate IsConflictOf(codec: Codec, c: FilePlan, f: ScaffoldFile) {
    c.path == f.path && c.kind == f.kind && c.checksum == codec.hash(f.content)
  }

  /** The first manifest has a record for exactly the scaffold's files that are created or found, lists
      exactly the others as conflicts, and has no other record. */
  lemma FirstManifestRecords(codec: Codec, sc: Scaffold, d: Disk, now: string, t: Transaction)
    requires Planned(codec, sc, d, now, t) && MANIFEST !in d
    ensures var m := codec.parseManifest(t.manifest);
      && m.Some? && m.value.extra.Generated? && m.value.extra.generatedAt == now
      && (forall f | f in sc.files :: IsRecorded(codec, f, m.value.files, 0) <==> CreatedOrFound(d, f))
      && (forall f | f in sc.files :: IsListed(codec, f, m.value.extra.conflicts) <==> !CreatedOrFound(d, f))
      && EachCreated(codec, sc.files, m.value.files, 0)
  {
    var m := FreshManifest(sc, CommittedFiles(PlanOn(codec, sc, d)), now);
    FirstManifestIs(codec, sc, d, now, t);
    hide *;
    forall f | f in sc.files
      ensures IsRecorded(codec, f, m.files, 0) <==> CreatedOrFound(d, f)
      ensures IsListed(codec, f, m.extra.conflicts) <==> !CreatedOrFound(d, f)
    {
      var i :| 0 <= i < |sc.files| && sc.files[i] == f;
      FirstManifestRecord(codec, sc, d, now, i);
      FirstManifestConflict(codec, sc, d, now, i);
    }
    FirstManifestHasNoOther(codec, sc, d, now);
  }

  lemma FirstManifestIs(codec: Codec, sc: Scaffold, d: Disk, now: string, t: Transaction)
    requires Planned(codec, sc, d, now, t) && MANIFEST !in d
    ensures var m := FreshManifest(sc, CommittedFiles(PlanOn(codec, sc, d)), now);
      && codec.parseManifest(t.manifest) == Some(m) && GoodScaffold(codec, sc) && WellFormed(d)
      && m.extra == Generated(now, ConflictsOf(CommittedFiles(PlanOn(codec, sc, d))))
  {
    assert ManifestAt(d).value.None?;
  }

  ghost predicate IsListed(codec: Codec, f: ScaffoldFile, conflicts: seq<FilePlan>) {
    exists c | c in conflicts :: IsConflictOf(codec, c, f)
  }

  lemma FirstManifestHasNoOther(codec: Codec, sc: Scaffold, d: Disk, now: string)
    ensures EachCreated(codec, sc.files, FreshManifest(sc, CommittedFiles(PlanOn(codec, sc, d)), now).files, 0)
  {
    var c := CommittedFiles(PlanOn(codec, sc, d));
    var m := FreshManifest(sc, c, now);
    hide Records, StatusOf, IsRecordOf;
    RecordsAre(c, NotConflicted());
    forall k | 0 <= k < |m.files| ensures IsOfOne(codec, m.files[k], sc.files) {
      assert m.files[k] in m.files;
      var i :| 0 <= i < |c| && NotConflicted()(c[i]) && m.files[k] == ManifestRecord(c[i]);
      RecordIsOf(codec, c[i], sc.files[i]);
      assert sc.files[i] in sc.files;
    }
  }

  lemma FirstStatus(codec: Codec, sc: Scaffold, d: Disk, i: nat)
    requires WellFormed(d) && i < |sc.files| && MANIFEST !in d
    ensures var c := CommittedFiles(PlanOn(codec, sc, d))[i];
      && c.path == sc.files[i].path && c.kind == sc.files[i].kind && c.checksum == codec.hash(sc.files[i].content)
      && (c.status != Conflicted <==> CreatedOrFound(d, sc.files[i]))
  {
    hide Inspect, Vacant, Lower, WellFormed;
    InspectMeans(d, sc.files[i].path, sc.files[i].content);
  }

  lemma FirstManifestRecord(codec: Codec, sc: Scaffold, d: Disk, now: string, i: nat)
    requires GoodScaffold(codec, sc) && WellFormed(d) && i < |sc.files| && MANIFEST !in d
    ensures IsRecorded(codec, sc.files[i], FreshManifest(sc, CommittedFiles(PlanOn(codec, sc, d)), now).files, 0) <==> CreatedOrFound(d, sc.files[i])
  {
    var c := CommittedFiles(PlanOn(codec, sc, d));
    var files := FreshManifest(sc, c, now).files;
    FirstStatus(codec, sc, d, i);
    RecordsAre(c, NotConflicted());
    RecordIsOf(codec, c[i], sc.files[i]);
    hide CreatedOrFound, Records, PlanOn, WellFormed, IsRecordOf;
    if c[i].status != Conflicted {
      assert NotConflicted()(c[i]) && ManifestRecord(c[i]) in files;
      var k :| 0 <= k < |files| && files[k] == ManifestRecord(c[i]);
    }
    if IsRecorded(codec, sc.files[i], files, 0) {
      var k :| 0 <= k < |files| && IsRecordOf(codec, files[k], sc.files[i]);
      assert files[k] in files;
      var n :| 0 <= n < |c| && NotConflicted()(c[n]) && files[k] == ManifestRecord(c[n]);
      RecordHasPath(codec, c[n], sc.files[i]);
      FirstPath(codec, sc, d, n);
      SamePathSameIndex(sc.files, n, i);
    }
  }

  lemma FirstPath(codec: Codec, sc: Scaffold, d: Disk, n: nat)
    requires n < |sc.files|
    ensures CommittedFiles(PlanOn(codec, sc, d))[n].path == sc.files[n].path
  {
  }

  lemma RecordHasPath(codec: Codec, plan: FilePlan, f: ScaffoldFile)
    requires IsRecordOf(codec, ManifestRecord(plan), f)
    ensures plan.path == f.path
  {
  }

  lemma FirstManifestConflict(codec: Codec, sc: Scaffold, d: Disk, now: string, i: nat)
    requires GoodScaffold(codec, sc) && WellFormed(d) && i < |sc.files| && MANIFEST !in d
    ensures IsListed(codec, sc.files[i], FreshManifest(sc, CommittedFiles(PlanOn(codec, sc, d)), now).extra.conflicts) <==> !CreatedOrFound(d, sc.files[i])
  {
    var c := CommittedFiles(PlanOn(codec, sc, d));
    FirstStatus(codec, sc, d, i);
    ConflictsAre(c);
    hide CreatedOrFound, PlanOn, WellFormed, ConflictsOf;
    if c[i].status == Conflicted {
      assert c[i] in ConflictsOf(c) && IsConflictOf(codec, c[i], sc.files[i]);
    }
    forall x | x in ConflictsOf(c) && IsConflictOf(codec, x, sc.files[i]) ensures c[i].status == Conflicted {
      var n :| 0 <= n < |c| && c[n] == x && x.status == Conflicted;
      FirstPath(codec, sc, d, n);
      SamePathSameIndex(sc.files, n, i);
    }
  }

  lemma {:induction false} ConflictsAre(plan: seq<FilePlan>)
    ensures forall x :: x in ConflictsOf(plan) <==> x in plan && x.status == Conflicted
  {
    if plan != [] {
      ConflictsAre(plan[1..]);
      assert plan == [plan[0]] + plan[1..];
    }
  }

  // ---------------------------------------------------------------- applying twice

  /** The manifest is there and nothing is planned as missing. */
  ghost predicate Saturated(codec: Codec, sc: Scaffold, d: Disk) {
    && Usable(codec, sc, d) && ManifestAt(d).value.Some?
    && forall i | 0 <= i < |sc.files| :: PlanOn(codec, sc, d)[i].status != Missing
  }

  lemma ParentConflictStays(d: Disk, d': Disk, p: Path, k: nat)
    requires Grown(d, d') && Outside(p) && k > 0 && ParentConflict(d, p, k)
    ensures ParentConflict(d', p, k)
    decreases |p| - k
  {
    assert p[..k][0] == p[0];
    assert p[..k] != MANIFEST;
    if d[p[..k]].Directory? { ParentConflictStays(d, d', p, k + 1); }
  }

  lemma EntryHasClearParents(d: Disk, p: Path)
    requires WellFormed(d) && p in d
    ensures !ParentConflict(d, p, 1)
  {
    forall k | 0 < k < |p| ensures FileAt(d, p[..k]) == None {
      ParentsOfEntry(d, p, k);
    }
    ClearMeansNoConflict(d, p, 1);
  }

  lemma AppliedIsSaturated(codec: Codec, sc: Scaffold, d: Disk, now: string, t: Transaction, d': Disk)
    requires Planned(codec, sc, d, now, t) && Committed(t, d') && Grown(d, d')
    ensures Saturated(codec, sc, d')
  {
    PublishedManifestIsUsable(codec, sc, d, now, t);
    EntryHasClearParents(d', MANIFEST);
    assert ManifestAt(d') == Ok(Some(t.manifest));
    forall i | 0 <= i < |sc.files| ensures StatusOf(d', sc.files[i], ManagedPaths(codec, d')) != Missing {
      var f := sc.files[i];
      CreatedIfPlanned(codec, sc, d, now, t, i);
      if f in t.files {
        assert FileAt(d', f.path) == Some(File(f.content));
      } else if ParentConflict(d, f.path, 1) {
        ParentConflictStays(d, d', f.path, 1);
      } else if f.path in d {
        assert f.path != MANIFEST;
        assert f.path in d';
      }
    }
  }

  lemma {:induction false} NothingMissing(files: seq<ScaffoldFile>, plan: seq<FilePlan>)
    requires forall i | 0 <= i < |plan| :: plan[i].status != Missing
    ensures MissingFiles(files, plan) == []
  {
    if files != [] { NothingMissing(files[1..], plan); }
  }

  lemma {:induction false} NothingRecorded(plan: seq<FilePlan>, keep: FilePlan -> bool)
    requires forall i | 0 <= i < |plan| :: !keep(plan[i])
    ensures Records(plan, keep) == []
  {
    if plan != [] { NothingRecorded(plan[1..], keep); }
  }

  lemma SaturatedPlansNothing(codec: Codec, sc: Scaffold, d: Disk, now: string)
    requires Saturated(codec, sc, d)
    ensures var t := PlannedTransaction(codec, sc, d, now);
      t.files == [] && FileAt(d, MANIFEST) == Some(File(t.manifest))
  {
    var plan := PlanOn(codec, sc, d);
    var t := PlannedTransaction(codec, sc, d, now);
    NothingMissing(sc.files, plan);
    var c := CommittedFiles(plan);
    var m := codec.parseManifest(ManifestAt(d).value.value).value;
    PlanOnIsFor(codec, sc, d);
    forall i | 0 <= i < |c| ensures c[i].status != Added {
      assert plan[i].status != Missing;
    }
    assert FileAt(d, MANIFEST) == Some(File(ManifestAt(d).value.value));
    NothingRecorded(c, NewlyAdded(m.files));
  }

  lemma AppliedCanStart(codec: Codec, sc: Scaffold, d: Disk)
    ensures AlreadyApplied(codec, sc, d) ==> CanStart(codec, sc, d)
  {
    if AlreadyApplied(codec, sc, d) {
      var before, now :| AppliedTo(codec, sc, before, now, d);
      var t := FirstApply(codec, sc, before, now, d);
    }
  }

  lemma FirstApply(codec: Codec, sc: Scaffold, before: Disk, now: string, d: Disk) returns (t: Transaction)
    requires AppliedTo(codec, sc, before, now, d)
    ensures Planned(codec, sc, before, now, t) && t.before == before && Sound(codec, t)
    ensures Saturated(codec, sc, RecoverDisk(codec, d)) && SameFiles(RecoverDisk(codec, d), d)
    ensures CanStart(codec, sc, d)
  {
    t := PlannedTransaction(codec, sc, before, now);
    PlanIsReady(codec, sc, before);
    TransactionIsSound(codec, sc, PlanOn(codec, sc, before), before, now);
    AppliedIsSaturated(codec, sc, before, now, t, d);
    CommittedRecovers(codec, t, d);
    hide Midway, PlannedTransaction, Sound, SaneJournal, RecoverDisk, PlanOn, GoodScaffold;
    AppliedIsSaturated(codec, sc, before, now, t, RecoverDisk(codec, d));
  }

  /** After an apply that succeeded, another one changes no file and no byte of the manifest, whatever its
      outcome and whichever system calls fail, even if the first could not remove its journal. */
  lemma SecondApplyChangesNothing(codec: Codec, sc: Scaffold, d1: Disk, now: string, t: Transaction, d2: Disk,
                                  log: seq<Effect>, from: nat, ok: bool, reliable: bool)
    requires AlreadyApplied(codec, sc, d1) && PlannedFrom(codec, sc, d1, now, t)
    requires AppliedFrom(codec, d1, t, d2, log, from, ok, reliable)
    ensures SameFiles(d1, d2)
  {
    var before, first :| AppliedTo(codec, sc, before, first, d1);
    var t1 := FirstApply(codec, sc, before, first, d1);
    SaturatedPlansNothing(codec, sc, t.before, now);
    hide AppliedTo, Planned, Saturated, PlannedTransaction, RecoverDisk, Usable;
    if Midway(codec, t, d2) {
      NothingToDo(codec, t, d2);
    } else {
      StoppedInRecovery(codec, d1, d2);
    }
  }

  lemma NothingToDo(codec: Codec, t: Transaction, d: Disk)
    requires t.files == [] && FileAt(t.before, MANIFEST) == Some(File(t.manifest)) && Midway(codec, t, d)
    ensures SameFiles(t.before, d)
  {
  }

  lemma StoppedInRecovery(codec: Codec, start: Disk, d: Disk)
    requires Within(d, start) && RecoverDisk(codec, d) == RecoverDisk(codec, start) && SameFiles(RecoverDisk(codec, start), start)
    ensures SameFiles(start, d)
  {
    assert Within(RecoverDisk(codec, d), d);
    var fixed := RecoverDisk(codec, start);
    hide RecoverDisk;
    forall p | p != JOURNAL ensures FileAt(d, p) == FileAt(start, p) {
      assert FileAt(start, p) == FileAt(fixed, p);
    }
  }

  lemma AppliedFromMeans(codec: Codec, sc: Scaffold, start: Disk, now: string, t: Transaction, d: Disk,
                         log: seq<Effect>, from: nat, ok: bool, reliable: bool)
    requires codec.Lawful() && GoodScaffold(codec, sc) && CanStart(codec, sc, start) && PlannedFrom(codec, sc, start, now, t)
    requires AppliedFrom(codec, start, t, d, log, from, ok, reliable)
    ensures ok ==> AlreadyApplied(codec, sc, d)
    ensures AlreadyApplied(codec, sc, start) ==> SameFiles(start, d)
  {
    if AlreadyApplied(codec, sc, start) {
      SecondApplyChangesNothing(codec, sc, start, now, t, d, log, from, ok, reliable);
    }
    if ok {
      PlanIsReady(codec, sc, start);
      hide GoodScaffold, Usable, CanStart, RecoverDisk, PlannedTransaction, Midway, Committed, Grown, AlreadyApplied, WellFormed;
      AppliedHere(codec, sc, now, t, d);
    }
  }

  lemma AppliedHere(codec: Codec, sc: Scaffold, now: string, t: Transaction, d: Disk)
    requires codec.Lawful() && GoodScaffold(codec, sc) && WellFormed(t.before) && JOURNAL !in t.before && Usable(codec, sc, t.before)
    requires t == PlannedTransaction(codec, sc, t.before, now)
    requires Midway(codec, t, d) && Committed(t, d) && Grown(t.before, d) && (JOURNAL in d ==> d[JOURNAL].File?)
    ensures AlreadyApplied(codec, sc, d)
  {
    assert AppliedTo(codec, sc, t.before, now, d);
  }

  lemma CommittedRecovers(codec: Codec, t: Transaction, d: Disk)
    requires codec.Lawful() && Sound(codec, t) && Midway(codec, t, d) && Committed(t, d) && Grown(t.before, d)
    requires WellFormed(t.before) && JOURNAL !in t.before && (JOURNAL in d ==> d[JOURNAL].File?)
    ensures var fixed := RecoverDisk(codec, d);
      && Committed(t, fixed) && Grown(t.before, fixed) && (forall p | p != JOURNAL :: FileAt(fixed, p) == FileAt(d, p))
    ensures WellFormed(d) && SaneJournal(codec, d) && (JOURNAL in d ==> JournalAt(codec, d).Some?)
  {
    MidwaySane(codec, t, d);
    if JOURNAL in d {
      MidwayJournal(codec, t, d);
      PublishedTidied(codec, t, d, d - {JOURNAL});
    }
  }

  // ---------------------------------------------------------------- applying after a crash

  /** The manifest is checked before anything is recovered. On whatever disk an interrupted apply left, it
      passes, being the old or the new one; so the next call gets to recover, and recovery settles. */
  lemma CrashedDiskCanStart(codec: Codec, sc: Scaffold, d: Disk, now: string, t: Transaction, crashed: Disk)
    requires Planned(codec, sc, d, now, t) && Midway(codec, t, crashed) && WellFormed(crashed)
    requires MANIFEST in crashed ==> !crashed[MANIFEST].Directory?
    requires JOURNAL in crashed ==> !crashed[JOURNAL].Directory?
    ensures CanStart(codec, sc, crashed) && Settled(t, RecoverDisk(codec, crashed))
    ensures JOURNAL in crashed ==> Recoverable(codec, crashed)
  {
    PlanIsReady(codec, sc, d);
    TransactionIsSound(codec, sc, PlanOn(codec, sc, d), d, now);
    PublishedManifestIsUsable(codec, sc, d, now, t);
    RecoverySettles(codec, t, crashed);
    MidwaySane(codec, t, crashed);
    if JOURNAL in crashed {
      MidwayJournal(codec, t, crashed);
      MidwayIsRecoverable(codec, t, crashed);
    }
    hide Recoverable, GoodScaffold, Compatible, PlannedTransaction, Settled, SaneJournal, RecoverDisk;
    CrashedManifest(codec, t, d, crashed);
  }

  lemma CrashedManifest(codec: Codec, t: Transaction, d: Disk, crashed: Disk)
    requires t.before == d && Sound(codec, t) && WellFormed(d) && ManifestAt(d).Ok? && Midway(codec, t, crashed)
    requires MANIFEST in crashed ==> !crashed[MANIFEST].Directory?
    ensures ManifestAt(crashed) == ManifestAt(d) || ManifestAt(crashed) == Ok(Some(t.manifest))
  {
    NoConflictMeansClear(d, MANIFEST, 1);
    assert MANIFEST[..1] == SSEALED;
    assert FileAt(d, MANIFEST[..1]) == None;
    forall i | 0 <= i < |t.files| ensures t.files[i].path != SSEALED {
      assert GoodTarget(codec, d, t.files[i].path);
    }
    assert FileAt(crashed, SSEALED) == None;
    forall k | 0 < k < |MANIFEST| ensures FileAt(crashed, MANIFEST[..k]) == None {
      assert k == 1;
    }
    ClearMeansNoConflict(crashed, MANIFEST, 1);
  }
}
