/** Which disks a scaffold transaction can leave behind, and what recovery makes of them.

    Everything here is about disks as values. `ScaffoldTransaction` shows that the program leaves only
    such disks behind, whichever of its writes is the last one before a crash.
 */
module ScaffoldCrash {
  import opened Prelude
  import opened ScaffoldModel

  /** The disk a transaction starts from, the files it creates and the manifest text it commits with. */
  datatype Transaction = Transaction(before: Disk, files: seq<ScaffoldFile>, manifest: string)

  function JournalFiles(codec: Codec, files: seq<ScaffoldFile>): seq<JournalFile> {
    seq(|files|, i requires 0 <= i < |files| => JournalFile(files[i].path, codec.hash(files[i].content)))
  }

  function JournalText(codec: Codec, t: Transaction): string {
    codec.printJournal(Journal(JOURNAL_VERSION, codec.hash(t.manifest), JournalFiles(codec, t.files)))
  }

  ghost predicate PathsDistinct(files: seq<ScaffoldFile>) {
    forall i, j | 0 <= i < j < |files| :: files[i].path != files[j].path
  }

  /** What the planning checks establish before the journal is written. */
  ghost predicate Sound(codec: Codec, t: Transaction) {
    && (forall i | 0 <= i < |t.files| :: GoodTarget(codec, t.before, t.files[i].path))
    && PathsDistinct(t.files)
    && (forall i, j | 0 <= i < |t.files| && 0 <= j < |t.files| :: !Below(t.files[i].path, t.files[j].path))
    && FileAt(t.before, JOURNAL) == None
    && (t.files != [] ==> FileAt(t.before, MANIFEST) != Some(File(t.manifest)))
  }

  ghost predicate GoodTarget(codec: Codec, d: Disk, p: Path) {
    Outside(p) && codec.validPath(p) && FileAt(d, p) == None && ClearParents(d, p)
  }

  predicate IsTarget(t: Transaction, p: Path) {
    exists i | 0 <= i < |t.files| :: t.files[i].path == p
  }

  ghost predicate AllCreated(t: Transaction, d: Disk) {
    forall i | 0 <= i < |t.files| :: FileAt(d, t.files[i].path) == Some(File(t.files[i].content))
  }

  ghost predicate NoneCreated(t: Transaction, d: Disk) {
    forall i | 0 <= i < |t.files| :: FileAt(d, t.files[i].path) == None
  }

  /** Every file outside the transaction is as it was. */
  ghost predicate OthersKept(t: Transaction, d: Disk) {
    forall p | p != MANIFEST && p != JOURNAL && !IsTarget(t, p) :: FileAt(d, p) == FileAt(t.before, p)
  }

  /** Exactly as before: no file of the transaction, the old manifest. */
  ghost predicate Untouched(t: Transaction, d: Disk) {
    OthersKept(t, d) && NoneCreated(t, d) && FileAt(d, MANIFEST) == FileAt(t.before, MANIFEST)
  }

  /** Fully applied: every file of the transaction, the new manifest. */
  ghost predicate Committed(t: Transaction, d: Disk) {
    OthersKept(t, d) && AllCreated(t, d) && FileAt(d, MANIFEST) == Some(File(t.manifest))
  }

  ghost predicate Settled(t: Transaction, d: Disk) {
    FileAt(d, JOURNAL) == None && (Untouched(t, d) || Committed(t, d))
  }

  /** A disk the transaction may leave behind when it stops at any point. */
  ghost predicate Midway(codec: Codec, t: Transaction, d: Disk) {
    && OthersKept(t, d)
    && (forall i | 0 <= i < |t.files| ::
          FileAt(d, t.files[i].path) in {None, Some(File(t.files[i].content))})
    && (forall i | 0 <= i < |t.files| :: ClearParents(d, t.files[i].path))
    && (FileAt(d, MANIFEST) == FileAt(t.before, MANIFEST)
        || (FileAt(d, MANIFEST) == Some(File(t.manifest)) && AllCreated(t, d)))
    && (if FileAt(d, JOURNAL) == None then Untouched(t, d) || Committed(t, d)
        else FileAt(d, JOURNAL) == Some(File(JournalText(codec, t))) && SSEALED in d && d[SSEALED] == Directory)
  }

  /** Creating or undoing: the journal is there and the manifest is still the old one. */
  ghost predicate Uncommitted(codec: Codec, t: Transaction, d: Disk) {
    Midway(codec, t, d) && FileAt(d, JOURNAL) != None && FileAt(d, MANIFEST) == FileAt(t.before, MANIFEST)
  }

  // ---------------------------------------------------------------- recovery as a function of the disk

  ghost predicate Matches(codec: Codec, d: Disk, file: JournalFile) {
    file.path in d && d[file.path].File? && codec.hash(d[file.path].text) == file.checksum
  }

  ghost predicate Removable(codec: Codec, d: Disk, files: seq<JournalFile>, p: Path) {
    exists i | 0 <= i < |files| :: files[i].path == p && Matches(codec, d, files[i])
  }

  function JournalAt(codec: Codec, d: Disk): Option<Journal> {
    if SSEALED in d && d[SSEALED].Directory? && JOURNAL in d && d[JOURNAL].File?
    then codec.parseJournal(d[JOURNAL].text)
    else None
  }

  /** The commit marker: the manifest on disk is the one the journal announces. */
  predicate ManifestCommitted(codec: Codec, d: Disk, j: Journal) {
    MANIFEST in d && d[MANIFEST].File? && codec.hash(d[MANIFEST].text) == j.manifestChecksum
  }

  /** The disk after an undisturbed recovery that runs to its end. */
  ghost function RecoverDisk(codec: Codec, d: Disk): Disk {
    match JournalAt(codec, d)
    case None => d
    case Some(j) =>
      if ManifestCommitted(codec, d, j) then d - {JOURNAL}
      else map p | p in d && p != JOURNAL && !Removable(codec, d, j.files, p) :: d[p]
  }

  /** One write recovery may do on this disk: remove a file the journal lists unmodified, or, once none
      is left or the manifest was committed, the journal itself. */
  ghost predicate RecoveryEffect(codec: Codec, d: Disk, d': Disk) {
    var j := JournalAt(codec, d);
    && j.Some?
    && if ManifestCommitted(codec, d, j.value) || (forall p :: !Removable(codec, d, j.value.files, p))
       then d' == d - {JOURNAL}
       else exists p :: Removable(codec, d, j.value.files, p) && d' == d - {p}
  }

  ghost predicate SaneJournal(codec: Codec, d: Disk) {
    var j := JournalAt(codec, d);
    j.Some? ==> forall i | 0 <= i < |j.value.files| :: Outside(j.value.files[i].path)
  }

  /** Wherever recovery crashes, running it again from there leads to the same disk. */
  lemma RecoveryRestarts(codec: Codec, d: Disk, d': Disk)
    requires SaneJournal(codec, d) && RecoveryEffect(codec, d, d')
    ensures RecoverDisk(codec, d') == RecoverDisk(codec, d)
    ensures SaneJournal(codec, d')
  {
    var j := JournalAt(codec, d).value;
    if ManifestCommitted(codec, d, j) || (forall p :: !Removable(codec, d, j.files, p)) {
      assert JournalAt(codec, d') == None;
    } else {
      var p :| Removable(codec, d, j.files, p) && d' == d - {p};
      assert JournalAt(codec, d') == Some(j);
      assert !ManifestCommitted(codec, d', j);
      forall q | q in d && q != p ensures Removable(codec, d', j.files, q) <==> Removable(codec, d, j.files, q) {
        if Removable(codec, d, j.files, q) {
          var i :| 0 <= i < |j.files| && j.files[i].path == q && Matches(codec, d, j.files[i]);
          assert Matches(codec, d', j.files[i]);
        }
      }
    }
  }

  /** Nothing on the disk stands in the way of recovery. */
  ghost predicate Recoverable(codec: Codec, d: Disk) {
    && (SSEALED in d ==> d[SSEALED].Directory?)
    && (SSEALED in d && JOURNAL in d ==>
          var j := JournalAt(codec, d);
          && j.Some? && j.value.version == JOURNAL_VERSION
          && forall i | 0 <= i < |j.value.files| ::
               codec.validPath(j.value.files[i].path) && ClearParents(d, j.value.files[i].path))
  }

  lemma MidwayIsRecoverable(codec: Codec, t: Transaction, d: Disk)
    requires codec.Lawful() && Sound(codec, t) && Midway(codec, t, d) && FileAt(d, JOURNAL) != None
    ensures Recoverable(codec, d) && SaneJournal(codec, d)
  {
    MidwayJournal(codec, t, d);
    forall i | 0 <= i < |t.files|
      ensures Outside(t.files[i].path) && codec.validPath(t.files[i].path) && ClearParents(d, t.files[i].path)
    {
      assert GoodTarget(codec, t.before, t.files[i].path);
    }
  }

  lemma MidwayJournal(codec: Codec, t: Transaction, d: Disk)
    requires codec.Lawful() && Midway(codec, t, d) && FileAt(d, JOURNAL) != None
    ensures JournalAt(codec, d) == Some(Journal(JOURNAL_VERSION, codec.hash(t.manifest), JournalFiles(codec, t.files)))
  {
  }

  /** On a disk left by a transaction, the journal entries that match are exactly the files it created. */
  lemma MidwayRemovable(codec: Codec, t: Transaction, d: Disk, p: Path)
    requires codec.Lawful() && Midway(codec, t, d)
    ensures Removable(codec, d, JournalFiles(codec, t.files), p) <==> IsTarget(t, p) && FileAt(d, p) != None
  {
    var files := JournalFiles(codec, t.files);
    if IsTarget(t, p) && FileAt(d, p) != None {
      var i :| 0 <= i < |t.files| && t.files[i].path == p;
      assert files[i].path == p && Matches(codec, d, files[i]);
    }
    if Removable(codec, d, files, p) {
      var i :| 0 <= i < |files| && files[i].path == p && Matches(codec, d, files[i]);
      assert t.files[i].path == p;
    }
  }

  /** The commit marker can be trusted: seen committed, everything was created; seen uncommitted, the
      manifest is the old one. */
  lemma MarkerIsRight(codec: Codec, t: Transaction, d: Disk)
    requires codec.Lawful() && Sound(codec, t) && Midway(codec, t, d) && FileAt(d, JOURNAL) != None
    ensures ManifestCommitted(codec, d, JournalAt(codec, d).value) ==> Committed(t, d)
    ensures !ManifestCommitted(codec, d, JournalAt(codec, d).value) ==> FileAt(d, MANIFEST) == FileAt(t.before, MANIFEST)
  {
    MidwayJournal(codec, t, d);
  }

  /** Crash atomicity: recovery turns every disk a transaction may leave behind into one that is either
      exactly as before or fully applied. */
  lemma RecoverySettles(codec: Codec, t: Transaction, d: Disk)
    requires codec.Lawful() && Sound(codec, t) && Midway(codec, t, d)
    ensures Settled(t, RecoverDisk(codec, d))
  {
    if FileAt(d, JOURNAL) == None {
      assert RecoverDisk(codec, d) == d;
    } else {
      MidwayJournal(codec, t, d);
      MarkerIsRight(codec, t, d);
      var j := JournalAt(codec, d).value;
      var d' := RecoverDisk(codec, d);
      forall i | 0 <= i < |t.files| ensures t.files[i].path != JOURNAL && t.files[i].path != MANIFEST {
        assert GoodTarget(codec, t.before, t.files[i].path);
      }
      if ManifestCommitted(codec, d, j) {
        assert forall p | p != JOURNAL :: FileAt(d', p) == FileAt(d, p);
      } else {
        forall p | p != JOURNAL ensures FileAt(d', p) == if IsTarget(t, p) then None else FileAt(d, p) {
          MidwayRemovable(codec, t, d, p);
        }
        assert !IsTarget(t, MANIFEST);
        assert Untouched(t, d');
      }
    }
  }

  /** A crash inside recovery leaves a disk the transaction could have left itself. */
  lemma RecoveryKeepsMidway(codec: Codec, t: Transaction, d: Disk, d': Disk)
    requires codec.Lawful() && Sound(codec, t) && Midway(codec, t, d) && RecoveryEffect(codec, d, d')
    ensures Midway(codec, t, d')
  {
    MidwayJournal(codec, t, d);
    MarkerIsRight(codec, t, d);
    var j := JournalAt(codec, d).value;
    forall i | 0 <= i < |t.files| ensures Outside(t.files[i].path) {
      assert GoodTarget(codec, t.before, t.files[i].path);
    }
    if ManifestCommitted(codec, d, j) {
      JournalRemoved(codec, t, d);
    } else if forall p :: !Removable(codec, d, j.files, p) {
      forall i | 0 <= i < |t.files| ensures FileAt(d, t.files[i].path) == None {
        MidwayRemovable(codec, t, d, t.files[i].path);
      }
      assert Untouched(t, d);
      JournalRemoved(codec, t, d);
    } else {
      var p :| Removable(codec, d, j.files, p) && d' == d - {p};
      MidwayRemovable(codec, t, d, p);
      TargetRemoved(codec, t, d, p);
    }
  }

  lemma JournalRemoved(codec: Codec, t: Transaction, d: Disk)
    requires Sound(codec, t) && Midway(codec, t, d) && (Untouched(t, d) || Committed(t, d))
    ensures Midway(codec, t, d - {JOURNAL}) && Settled(t, d - {JOURNAL})
    ensures Untouched(t, d) ==> Untouched(t, d - {JOURNAL})
    ensures Committed(t, d) ==> Committed(t, d - {JOURNAL})
  {
    var d' := d - {JOURNAL};
    assert forall p | p != JOURNAL :: FileAt(d', p) == FileAt(d, p);
    forall i | 0 <= i < |t.files| ensures Outside(t.files[i].path) && ClearParents(d', t.files[i].path) {
      var p := t.files[i].path;
      assert GoodTarget(codec, t.before, p);
      forall k | 0 < k < |p| ensures FileAt(d', p[..k]) == None {
        assert p[..k][0] == p[0];
      }
    }
  }

  /** While the manifest is the old one, removing a created file leads to another midway disk. */
  lemma TargetRemoved(codec: Codec, t: Transaction, d: Disk, p: Path)
    requires Sound(codec, t) && Midway(codec, t, d) && IsTarget(t, p) && FileAt(d, p) != None
    requires FileAt(d, JOURNAL) != None && FileAt(d, MANIFEST) == FileAt(t.before, MANIFEST)
    ensures Midway(codec, t, d - {p})
    ensures FileAt(d - {p}, MANIFEST) == FileAt(d, MANIFEST) && FileAt(d - {p}, JOURNAL) == FileAt(d, JOURNAL)
  {
    var d' := d - {p};
    var n :| 0 <= n < |t.files| && t.files[n].path == p;
    assert GoodTarget(codec, t.before, t.files[n].path);
    assert forall q | q != p :: FileAt(d', q) == FileAt(d, q);
    forall i | 0 <= i < |t.files| ensures ClearParents(d', t.files[i].path) {
      assert ClearParents(d, t.files[i].path);
    }
  }

  /** Changes to directories outside `.ssealed` never matter. */
  lemma DirectoriesDoNotMatter(codec: Codec, t: Transaction, d: Disk, d': Disk)
    requires Midway(codec, t, d)
    requires forall p :: FileAt(d', p) == FileAt(d, p)
    requires SSEALED in d && d[SSEALED] == Directory ==> SSEALED in d' && d'[SSEALED] == Directory
    ensures Midway(codec, t, d')
  {
    forall i | 0 <= i < |t.files| ensures ClearParents(d', t.files[i].path) {
      assert ClearParents(d, t.files[i].path);
    }
  }

  /** Creating a file of the transaction while the manifest is the old one. */
  lemma TargetCreated(codec: Codec, t: Transaction, d: Disk, n: nat)
    requires Sound(codec, t) && Midway(codec, t, d) && n < |t.files|
    requires t.files[n].path !in d
    requires FileAt(d, JOURNAL) != None && FileAt(d, MANIFEST) == FileAt(t.before, MANIFEST)
    ensures var d' := d[t.files[n].path := File(t.files[n].content)];
      && Midway(codec, t, d')
      && FileAt(d', MANIFEST) == FileAt(d, MANIFEST) && FileAt(d', JOURNAL) == FileAt(d, JOURNAL)
  {
    var p := t.files[n].path;
    var d' := d[p := File(t.files[n].content)];
    assert GoodTarget(codec, t.before, p);
    assert forall q | q != p :: FileAt(d', q) == FileAt(d, q);
    assert IsTarget(t, p);
    forall i | 0 <= i < |t.files| ensures ClearParents(d', t.files[i].path) {
      var q := t.files[i].path;
      forall k | 0 < k < |q| ensures FileAt(d', q[..k]) == None {
        assert !Below(p, q);
        assert ClearParents(d, q);
      }
    }
    forall i | 0 <= i < |t.files| ensures FileAt(d', t.files[i].path) in {None, Some(File(t.files[i].content))} {
      if i != n { assert t.files[i].path != p; }
    }
  }

  /** Publishing the new manifest once every file exists commits the transaction. */
  lemma ManifestPublished(codec: Codec, t: Transaction, d: Disk)
    requires Sound(codec, t) && Midway(codec, t, d) && AllCreated(t, d)
    requires FileAt(d, JOURNAL) != None
    ensures var d' := d[MANIFEST := File(t.manifest)]; Midway(codec, t, d') && Committed(t, d')
  {
    var d' := d[MANIFEST := File(t.manifest)];
    assert forall q | q != MANIFEST :: FileAt(d', q) == FileAt(d, q);
    forall i | 0 <= i < |t.files| ensures Outside(t.files[i].path) && ClearParents(d', t.files[i].path) {
      var p := t.files[i].path;
      assert GoodTarget(codec, t.before, p);
      forall k | 0 < k < |p| ensures FileAt(d', p[..k]) == None {
        assert p[..k][0] == p[0];
      }
    }
  }

  /** Writing the journal on an untouched disk. */
  lemma JournalWritten(codec: Codec, t: Transaction, d: Disk)
    requires Sound(codec, t) && Midway(codec, t, d) && Untouched(t, d)
    requires SSEALED in d && d[SSEALED] == Directory
    ensures var d' := d[JOURNAL := File(JournalText(codec, t))]; Midway(codec, t, d') && Untouched(t, d')
  {
    var d' := d[JOURNAL := File(JournalText(codec, t))];
    assert forall q | q != JOURNAL :: FileAt(d', q) == FileAt(d, q);
    forall i | 0 <= i < |t.files| ensures Outside(t.files[i].path) && ClearParents(d', t.files[i].path) {
      var p := t.files[i].path;
      assert GoodTarget(codec, t.before, p);
      forall k | 0 < k < |p| ensures FileAt(d', p[..k]) == None {
        assert p[..k][0] == p[0];
      }
    }
  }

  lemma StartIsMidway(codec: Codec, t: Transaction)
    requires Sound(codec, t)
    ensures Midway(codec, t, t.before) && Untouched(t, t.before)
  {
    forall i | 0 <= i < |t.files| ensures FileAt(t.before, t.files[i].path) == None && ClearParents(t.before, t.files[i].path) {
      assert GoodTarget(codec, t.before, t.files[i].path);
    }
  }

  // ---------------------------------------------------------------- whole runs

  /** The disks of one crash and any number of interrupted recoveries after it: each disk follows from
      the one before by one recovery write, whoever does it. */
  ghost predicate RecoveryRun(codec: Codec, disks: seq<Disk>) {
    |disks| > 0 && forall i | 0 <= i < |disks| - 1 :: RecoveryEffect(codec, disks[i], disks[i+1])
  }

  ghost predicate NothingLeft(codec: Codec, d: Disk) {
    forall d' :: !RecoveryEffect(codec, d, d')
  }

  lemma RecoveryEffectShrinks(codec: Codec, d: Disk, d': Disk)
    requires RecoveryEffect(codec, d, d')
    ensures |d'| + 1 == |d|
  {
    var p :| p in d && d' == d - {p};
    assert d'.Keys == d.Keys - {p};
    assert |d'.Keys| == |d'| && |d.Keys| == |d|;
  }

  /** However often recovery is interrupted and started again, every disk on the way is one the
      transaction could have left, each write brings the end nearer, and when nothing is left to do the
      repository is settled. */
  lemma {:induction false} InterruptedRecoveriesSettle(codec: Codec, t: Transaction, disks: seq<Disk>)
    requires codec.Lawful() && Sound(codec, t) && RecoveryRun(codec, disks) && Midway(codec, t, disks[0])
    ensures Midway(codec, t, disks[|disks|-1])
    ensures Settled(t, RecoverDisk(codec, disks[|disks|-1]))
    ensures RecoverDisk(codec, disks[|disks|-1]) == RecoverDisk(codec, disks[0])
    ensures NothingLeft(codec, disks[|disks|-1]) ==> Settled(t, disks[|disks|-1])
    ensures |disks| + |disks[|disks|-1]| == 1 + |disks[0]|
    decreases |disks|
  {
    if |disks| > 1 {
      var n := |disks| - 1;
      InterruptedRecoveriesSettle(codec, t, disks[..n]);
      assert disks[..n][n-1] == disks[n-1] && disks[..n][0] == disks[0];
      RecoveryStepOn(codec, t, disks[n-1], disks[n]);
    }
    RecoveryEnds(codec, t, disks[|disks|-1]);
  }

  lemma RecoveryStepOn(codec: Codec, t: Transaction, d: Disk, d': Disk)
    requires codec.Lawful() && Sound(codec, t) && Midway(codec, t, d) && RecoveryEffect(codec, d, d')
    ensures Midway(codec, t, d') && RecoverDisk(codec, d') == RecoverDisk(codec, d) && |d'| + 1 == |d|
  {
    MidwaySane(codec, t, d);
    RecoveryRestarts(codec, d, d');
    RecoveryKeepsMidway(codec, t, d, d');
    RecoveryEffectShrinks(codec, d, d');
  }

  lemma RecoveryEnds(codec: Codec, t: Transaction, d: Disk)
    requires codec.Lawful() && Sound(codec, t) && Midway(codec, t, d)
    ensures Settled(t, RecoverDisk(codec, d))
    ensures NothingLeft(codec, d) ==> Settled(t, d)
  {
    RecoverySettles(codec, t, d);
    if FileAt(d, JOURNAL) != None {
      MidwayJournal(codec, t, d);
      RecoveryCanContinue(codec, d);
    }
  }

  lemma MidwaySane(codec: Codec, t: Transaction, d: Disk)
    requires codec.Lawful() && Sound(codec, t) && Midway(codec, t, d)
    ensures SaneJournal(codec, d)
  {
    if JournalAt(codec, d).Some? {
      MidwayJournal(codec, t, d);
      forall i | 0 <= i < |t.files| ensures Outside(t.files[i].path) {
        assert GoodTarget(codec, t.before, t.files[i].path);
      }
    }
  }

  lemma RecoveryCanContinue(codec: Codec, d: Disk)
    requires JournalAt(codec, d).Some?
    ensures exists d' :: RecoveryEffect(codec, d, d')
  {
    var j := JournalAt(codec, d).value;
    if ManifestCommitted(codec, d, j) || (forall p :: !Removable(codec, d, j.files, p)) {
      assert RecoveryEffect(codec, d, d - {JOURNAL});
    } else {
      var p :| Removable(codec, d, j.files, p);
      assert RecoveryEffect(codec, d, d - {p});
    }
  }

  /** The rule that a managed but deleted file is a conflict is what makes the commit marker work: were
      the new manifest equal to the old one while files are being created, recovery would take the
      half-done work for committed and leave it. */
  lemma SameManifestWouldBreakRecovery(codec: Codec, t: Transaction, d: Disk)
    requires codec.Lawful() && Midway(codec, t, d)
    requires t.files != [] && FileAt(t.before, MANIFEST) == Some(File(t.manifest))
    requires FileAt(d, JOURNAL) != None && !AllCreated(t, d) && !NoneCreated(t, d)
    requires !IsTarget(t, JOURNAL)
    ensures !Settled(t, RecoverDisk(codec, d))
  {
    MidwayJournal(codec, t, d);
    var d' := RecoverDisk(codec, d);
    assert d' == d - {JOURNAL};
    assert forall p | p != JOURNAL :: FileAt(d', p) == FileAt(d, p);
    var i :| 0 <= i < |t.files| && FileAt(d, t.files[i].path) != None;
    assert FileAt(d', t.files[i].path) != None;
    var k :| 0 <= k < |t.files| && FileAt(d, t.files[k].path) != Some(File(t.files[k].content));
    assert FileAt(d', t.files[k].path) != Some(File(t.files[k].content));
  }
}
