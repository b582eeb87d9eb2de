/** The cache that answers "which is the newest run of each repository" without reading every record.

    The record directory has a timeline of moments. A call looks at the directory's stamp, then lists it,
    then looks at each file's stamp, then reads the file, each at a later moment, and others change the
    directory in between. A stamp is a length with a modification time; a stamp that could be read never
    comes back once what it stands for has changed.
 */
module TaskRunRecordCache {
  import opened Prelude
  import opened TaskRuns
  import opened TextOrder

  /** `record` is what reading the file gives: None if it is too large, malformed, outside the workspace
      or not bound to its file name. */
  datatype DiskFile = DiskFile(stamp: Option<nat>, record: Option<Record>)

  datatype Moment = Gone | Unreadable | Listing(stamp: Option<nat>, files: map<string, DiskFile>)

  /** `stampAt` and `readAt` are the moments at which the file was inspected and read. */
  datatype CachedFile = CachedFile(stamp: Option<nat>, record: Option<Record>, stampAt: nat, readAt: nat)

  /** `dirAt`, `listedAt` and `doneAt` are the moments of the last complete scan. */
  datatype Cache = Cache(
    dirStamp: Option<nat>, files: map<string, CachedFile>, latest: seq<Record>,
    dirAt: nat, listedAt: nat, doneAt: nat)

  const EMPTY := Cache(None, map[], [], 0, 0, 0)

  datatype Error = RecordReadFailed

  function Name(r: Record): string { r.id + ".json" }

  predicate Has(m: Moment, n: string) { m.Listing? && n in m.files }

  function RecordAt(m: Moment, n: string): Option<Record> {
    if Has(m, n) then m.files[n].record else None
  }

  // ---------------------------------------------------------------- timelines

  predicate DirSteady(h: seq<Moment>, i: nat, k: nat)
    requires i <= k < |h|
  {
    h[i].Listing? && h[k].Listing? && h[i].stamp == h[k].stamp && h[i].stamp.Some? ==>
      forall j | i <= j <= k :: h[j].Listing? && h[j].files.Keys == h[i].files.Keys
  }

  predicate FileSteady(h: seq<Moment>, n: string, i: nat, k: nat)
    requires i <= k < |h|
  {
    Has(h[i], n) && Has(h[k], n) && h[i].files[n].stamp == h[k].files[n].stamp && h[i].files[n].stamp.Some? ==>
      forall j | i <= j <= k :: Has(h[j], n) && h[j].files[n] == h[i].files[n]
  }

  predicate Bound(m: Moment) {
    m.Listing? ==> forall n | n in m.files && m.files[n].record.Some? :: Name(m.files[n].record.value) == n
  }

  predicate FilesSteady(h: seq<Moment>, i: nat, k: nat)
    requires i <= k < |h|
  {
    h[i].Listing? ==> forall n | n in h[i].files :: FileSteady(h, n, i, k)
  }

  /** Stamps do not come back, and a readable record carries the id its file is named after. */
  predicate Lawful(h: seq<Moment>) {
    && h != []
    && (forall i, k | 0 <= i <= k < |h| :: DirSteady(h, i, k))
    && (forall i, k | 0 <= i <= k < |h| :: FilesSteady(h, i, k))
    && (forall i | 0 <= i < |h| :: Bound(h[i]))
  }

  lemma SameFile(h: seq<Moment>, n: string, i: nat, k: nat, j: nat)
    requires Lawful(h) && i <= j <= k < |h| && Has(h[i], n) && Has(h[k], n)
    requires h[i].files[n].stamp == h[k].files[n].stamp && h[i].files[n].stamp.Some?
    ensures Has(h[j], n) && h[j].files[n] == h[i].files[n]
  {
    assert FilesSteady(h, i, k) && FileSteady(h, n, i, k);
  }

  // ---------------------------------------------------------------- what the cache knows

  ghost predicate CachedOk(h: seq<Moment>, n: string, f: CachedFile) {
    && f.stampAt <= f.readAt < |h| && Has(h[f.stampAt], n) && h[f.stampAt].files[n].stamp == f.stamp
    && f.record == RecordAt(h[f.readAt], n)
  }

  ghost predicate FilesOk(h: seq<Moment>, files: map<string, CachedFile>) {
    forall n | n in files :: CachedOk(h, n, files[n])
  }

  ghost predicate SeenBetween(h: seq<Moment>, n: string, record: Option<Record>, from: nat, to: nat) {
    exists k | from <= k <= to && k < |h| :: RecordAt(h[k], n) == record
  }

  ghost predicate AbsentBetween(h: seq<Moment>, n: string, from: nat, to: nat) {
    exists k | from <= k <= to && k < |h| :: !Has(h[k], n)
  }

  /** What a listed record may have become when liveness was projected: a run that was still going is
      read again, and shown as stopped if its process is gone. */
  ghost predicate ProjectsAt(h: seq<Moment>, n: string, f: CachedFile, p: Record, j: nat) {
    && f.record.Some? && f.readAt <= j < |h| && RecordAt(h[j], n).Some?
    && var r := RecordAt(h[j], n).value;
       && r.id == f.record.value.id && r.repository == f.record.value.repository
       && (f.record.value.state != RUNNING ==> j == f.readAt)
       && (p == r || (r.state == RUNNING && p == r.(state := STOPPED, rest := p.rest)))
  }

  /** The record the file was cached with, or one that was read again between `from` and `until`. */
  ghost predicate Projects(h: seq<Moment>, n: string, f: CachedFile, p: Record, from: nat, until: nat) {
    exists j: nat | j <= until && (j == f.readAt || from <= j) :: ProjectsAt(h, n, f, p, j)
  }

  ghost predicate FromFile(h: seq<Moment>, files: map<string, CachedFile>, p: Record, from: nat, until: nat) {
    Name(p) in files && Projects(h, Name(p), files[Name(p)], p, from, until)
  }

  ghost predicate Accounted(h: seq<Moment>, n: string, f: CachedFile, latest: seq<Record>, from: nat, until: nat) {
    f.record.Some? ==> exists p :: Projects(h, n, f, p, from, until) && Covered(latest, p)
  }

  ghost predicate LatestOk(h: seq<Moment>, c: Cache) {
    && Descending(c.latest)
    && (forall i, j | 0 <= i < j < |c.latest| :: c.latest[i].repository != c.latest[j].repository)
    && (forall p | p in c.latest :: FromFile(h, c.files, p, c.dirAt, c.doneAt))
    && (forall n | n in c.files :: Accounted(h, n, c.files[n], c.latest, c.dirAt, c.doneAt))
  }

  /** The files are exactly those listed, except some that were gone before they could be inspected. */
  ghost predicate Complete(h: seq<Moment>, files: map<string, CachedFile>, dirAt: nat, listedAt: nat, doneAt: nat) {
    && listedAt < |h| && h[listedAt].Listing?
    && (forall n | n in files :: n in h[listedAt].files && SeenBetween(h, n, files[n].record, dirAt, doneAt))
    && (forall n | n in h[listedAt].files && n !in files :: AbsentBetween(h, n, listedAt, doneAt))
  }

  /** Every record in the cache was on disk at some moment of the scan, and the newest were picked. */
  ghost predicate Scanned(h: seq<Moment>, c: Cache) {
    && c.dirAt <= c.listedAt <= c.doneAt < |h|
    && h[c.dirAt].Listing? && h[c.dirAt].stamp == c.dirStamp
    && (forall n | n in c.files :: c.files[n].readAt <= c.doneAt)
    && Complete(h, c.files, c.dirAt, c.listedAt, c.doneAt) && LatestOk(h, c)
  }

  ghost predicate CacheOk(h: seq<Moment>, c: Cache) {
    FilesOk(h, c.files) && (c.dirStamp.Some? ==> Scanned(h, c))
  }

  // ---------------------------------------------------------------- the fast path

  ghost predicate Unchanged(h: seq<Moment>, n: string, f: CachedFile, from: nat) {
    f.stamp.Some? && exists k | from <= k < |h| :: Has(h[k], n) && h[k].files[n].stamp == f.stamp
  }

  /** What the freshness check found: `at` is the moment the directory was inspected, each file may have
      been inspected later. */
  ghost predicate Fresh(h: seq<Moment>, c: Cache, at: nat) {
    && at < |h| && h[at].Listing? && c.dirStamp.Some? && h[at].stamp == c.dirStamp
    && (forall p | p in c.latest :: p.state != RUNNING)
    && (forall p | p in c.latest :: Name(p) in c.files && Unchanged(h, Name(p), c.files[Name(p)], at))
    && (forall n | n in c.files && c.files[n].record.None? :: Unchanged(h, n, c.files[n], at))
  }

  ghost predicate InLatest(latest: seq<Record>, n: string) {
    exists p | p in latest :: Name(p) == n
  }

  /** What a full rescan of this moment would name: every key belongs to a record, and none is newer. */
  ghost predicate NamesNewest(latest: seq<Record>, m: Moment) {
    && m.Listing?
    && (forall p | p in latest :: KeyOnDisk(m, p))
    && (forall n {:trigger RecordCovered(latest, m, n)} | n in m.files :: RecordCovered(latest, m, n))
  }

  ghost predicate KeyOnDisk(m: Moment, p: Record) {
    RecordAt(m, Name(p)).Some? && SameKey(RecordAt(m, Name(p)).value, p)
  }

  ghost predicate RecordCovered(latest: seq<Record>, m: Moment, n: string) {
    RecordAt(m, n).Some? ==> Covered(latest, RecordAt(m, n).value)
  }

  /** A file whose stamp is the cached one still holds the cached record. */
  lemma UnchangedRecord(h: seq<Moment>, n: string, f: CachedFile, at: nat)
    requires Lawful(h) && CachedOk(h, n, f) && f.readAt <= at < |h| && Unchanged(h, n, f, at)
    ensures Has(h[at], n) && forall j | f.readAt <= j <= at :: RecordAt(h[j], n) == f.record
  {
    var k :| at <= k < |h| && Has(h[k], n) && h[k].files[n].stamp == f.stamp;
    SameFile(h, n, f.stampAt, k, at);
    forall j | f.readAt <= j <= at ensures RecordAt(h[j], n) == f.record {
      SameFile(h, n, f.stampAt, k, j);
      SameFile(h, n, f.stampAt, k, f.readAt);
    }
  }

  /** Nothing appeared in the directory or left it since the scan. */
  lemma SameListing(h: seq<Moment>, c: Cache, at: nat)
    requires Lawful(h) && c.dirStamp.Some? && Scanned(h, c) && c.doneAt <= at < |h|
    requires h[at].Listing? && h[at].stamp == c.dirStamp
    ensures h[at].files.Keys == c.files.Keys
  {
    assert DirSteady(h, c.dirAt, at);
    forall n | n in h[at].files ensures n in c.files {
      assert n in h[c.listedAt].files;
      assert n in c.files || AbsentBetween(h, n, c.listedAt, c.doneAt);
    }
  }

  /** On the fast path every answer is the stored record, except that a run the file still calls running
      is shown as stopped. */
  lemma FastPathReturnsTheStored(h: seq<Moment>, c: Cache, at: nat, p: Record)
    requires Lawful(h) && CacheOk(h, c) && Fresh(h, c, at) && c.doneAt <= at && p in c.latest
    ensures RecordAt(h[at], Name(p)).Some? && SameKey(RecordAt(h[at], Name(p)).value, p)
    ensures var stored := RecordAt(h[at], Name(p)).value;
      p == stored || (stored.state == RUNNING && p.state == STOPPED && p == stored.(state := STOPPED, rest := p.rest))
  {
    var f := c.files[Name(p)];
    assert FromFile(h, c.files, p, c.dirAt, c.doneAt);
    UnchangedRecord(h, Name(p), f, at);
    hide Lawful, CacheOk, Fresh;
    StoredFromProjection(h, f, p, at, c.dirAt, c.doneAt);
  }

  lemma StoredFromProjection(h: seq<Moment>, f: CachedFile, p: Record, at: nat, from: nat, until: nat)
    requires Projects(h, Name(p), f, p, from, until) && until <= at < |h|
    requires forall j | f.readAt <= j <= at :: RecordAt(h[j], Name(p)) == f.record
    ensures var stored := RecordAt(h[at], Name(p));
      && stored.Some? && SameKey(stored.value, p)
      && (p == stored.value
          || (stored.value.state == RUNNING && p.state == STOPPED && p == stored.value.(state := STOPPED, rest := p.rest)))
  {
    var j: nat :| j <= until && (j == f.readAt || from <= j) && ProjectsAt(h, Name(p), f, p, j);
    assert RecordAt(h[j], Name(p)) == f.record;
    assert RecordAt(h[at], Name(p)) == f.record;
  }

  ghost predicate OlderCovered(h: seq<Moment>, c: Cache, at: nat)
    requires at < |h| && h[at].Listing?
  {
    forall n {:trigger RecordCovered(c.latest, h[at], n)} | n in h[at].files && n in c.files && c.files[n].record.Some? && !InLatest(c.latest, n) ::
      RecordCovered(c.latest, h[at], n)
  }

  /** The fast path names the newest run of every repository as a full rescan of the directory would, if
      and only if no older, once readable file now holds a run newer than the answer for its repository.
      Such files are the ones the freshness check does not look at. */
  lemma FastPathIsRightIff(h: seq<Moment>, c: Cache, at: nat)
    requires Lawful(h) && CacheOk(h, c) && Fresh(h, c, at) && c.doneAt <= at
    ensures NamesNewest(c.latest, h[at]) <==> OlderCovered(h, c, at)
  {
    SameListing(h, c, at);
    forall p | p in c.latest ensures KeyOnDisk(h[at], p) { FastPathReturnsTheStored(h, c, at, p); }
    if OlderCovered(h, c, at) {
      forall n | n in h[at].files ensures RecordCovered(c.latest, h[at], n) {
        if c.files[n].record.None? {
          UnchangedRecord(h, n, c.files[n], at);
        } else if InLatest(c.latest, n) {
          var p :| p in c.latest && Name(p) == n;
          CoveredByItself(c.latest, p, h[at]);
        }
      }
    }
  }

  /** The case it shuts out can happen: an older record is rewritten in place with a later start. The
      directory's stamp stays, and nobody looks at the file's. */
  lemma RewrittenOlderRun() returns (h: seq<Moment>, c: Cache)
    ensures Lawful(h) && |h| == 2 && CacheOk(h, c) && Fresh(h, c, 1) && c.doneAt <= 1
    ensures !OlderCovered(h, c, 1) && !NamesNewest(c.latest, h[1])
  {
    var older := Record("a", "r", "1", "succeeded", "");
    var newer := Record("b", "r", "2", "succeeded", "");
    var rewritten := Record("a", "r", "3", "succeeded", "");
    var newest := DiskFile(Some(1), Some(newer));
    var before := Listing(Some(5), map["a.json" := DiskFile(Some(1), Some(older)), "b.json" := newest]);
    var after := Listing(Some(5), map["a.json" := DiskFile(Some(2), Some(rewritten)), "b.json" := newest]);
    h := [before, after];
    c := Cache(Some(5), map["a.json" := CachedFile(Some(1), Some(older), 0, 0), "b.json" := CachedFile(Some(1), Some(newer), 0, 0)],
               [newer], 0, 0, 0);
    StartsInOrder();
    assert Name(older) == "a.json" && Name(rewritten) == "a.json" && Name(newer) == "b.json";
    hide Lawful, CacheOk, Fresh, OlderCovered, NamesNewest, Less;
    ExampleIsLawful(h);
    ExampleIsScanned(h, c, older, newer);
    ExampleIsFresh(h, c, newer);
    ExampleIsWrong(h, c, newer, rewritten);
  }

  lemma ExampleIsFresh(h: seq<Moment>, c: Cache, newer: Record)
    requires |h| == 2 && h[1].Listing? && c.dirStamp.Some? && h[1].stamp == c.dirStamp
    requires c.latest == [newer] && newer.state != RUNNING && Name(newer) in c.files && Has(h[1], Name(newer))
    requires c.files[Name(newer)].stamp.Some? && h[1].files[Name(newer)].stamp == c.files[Name(newer)].stamp
    requires forall n | n in c.files :: c.files[n].record.Some?
    ensures Fresh(h, c, 1)
  {
    assert Unchanged(h, Name(newer), c.files[Name(newer)], 1);
  }

  lemma ExampleIsWrong(h: seq<Moment>, c: Cache, newer: Record, rewritten: Record)
    requires |h| == 2 && h[1].Listing? && c.latest == [newer] && Newer(rewritten, newer) && Name(newer) != Name(rewritten)
    requires RecordAt(h[1], Name(rewritten)) == Some(rewritten)
    requires Name(rewritten) in c.files && c.files[Name(rewritten)].record.Some?
    ensures !OlderCovered(h, c, 1) && !NamesNewest(c.latest, h[1])
  {
    assert !Covered(c.latest, rewritten);
    assert !RecordCovered(c.latest, h[1], Name(rewritten));
  }

  lemma StartsInOrder()
    ensures Less("1", "2") && Less("2", "3") && Less("1", "3")
  {
  }

  lemma ExampleIsLawful(h: seq<Moment>)
    requires |h| == 2 && h[0].Listing? && h[1].Listing? && Bound(h[0]) && Bound(h[1])
    requires h[0].stamp == h[1].stamp && h[0].files.Keys == h[1].files.Keys
    requires forall n | n in h[0].files :: h[0].files[n] == h[1].files[n] || h[0].files[n].stamp != h[1].files[n].stamp
    ensures Lawful(h)
  {
    forall i, k | 0 <= i <= k < |h| ensures DirSteady(h, i, k) && FilesSteady(h, i, k) {
      forall n | n in h[i].files ensures FileSteady(h, n, i, k) {
      }
    }
  }

  lemma ExampleIsScanned(h: seq<Moment>, c: Cache, older: Record, newer: Record)
    requires h != [] && h[0].Listing? && h[0].stamp == c.dirStamp && c.dirAt == c.listedAt == c.doneAt == 0
    requires older.repository == newer.repository && older.state != RUNNING && newer.state != RUNNING && Newer(newer, older)
    requires Name(older) != Name(newer) && h[0].files.Keys == {Name(older), Name(newer)}
    requires RecordAt(h[0], Name(older)) == Some(older) && RecordAt(h[0], Name(newer)) == Some(newer)
    requires c.files == map[Name(older) := CachedFile(h[0].files[Name(older)].stamp, Some(older), 0, 0),
                            Name(newer) := CachedFile(h[0].files[Name(newer)].stamp, Some(newer), 0, 0)]
    requires c.latest == [newer]
    ensures CacheOk(h, c)
  {
    forall n | n in c.files ensures CachedOk(h, n, c.files[n]) && SeenBetween(h, n, c.files[n].record, 0, 0) {
      assert RecordAt(h[0], n) == c.files[n].record;
    }
    NewerIsStrict(newer, older);
    NewerIsStrict(newer, newer);
    assert ProjectsAt(h, Name(older), c.files[Name(older)], older, 0);
    assert ProjectsAt(h, Name(newer), c.files[Name(newer)], newer, 0);
    assert Projects(h, Name(older), c.files[Name(older)], older, 0, 0);
    assert Projects(h, Name(newer), c.files[Name(newer)], newer, 0, 0);
    assert newer in c.latest;
    assert Covered(c.latest, older) && Covered(c.latest, newer);
    forall n | n in c.files ensures Accounted(h, n, c.files[n], c.latest, 0, 0) {
    }
    assert FromFile(h, c.files, newer, 0, 0);
  }

  lemma CoveredByItself(latest: seq<Record>, p: Record, m: Moment)
    requires p in latest && KeyOnDisk(m, p)
    ensures RecordCovered(latest, m, Name(p))
  {
    NewerIsStrict(RecordAt(m, Name(p)).value, p);
    NewerIsStrict(p, p);
  }

  /** Since it was read, the file has held readable records with one and the same key. */
  ghost predicate KeyKept(h: seq<Moment>, n: string, f: CachedFile, at: nat) {
    f.record.Some? && forall j | f.readAt <= j <= at && j < |h| ::
      RecordAt(h[j], n).Some? && SameKey(RecordAt(h[j], n).value, f.record.value)
  }

  /** In particular it is right as long as rewriting an older record leaves its repository, start and id
      alone, as a run that reports its own end does. */
  lemma FastPathIsRight(h: seq<Moment>, c: Cache, at: nat)
    requires Lawful(h) && CacheOk(h, c) && Fresh(h, c, at) && c.doneAt <= at
    requires forall n | n in c.files && c.files[n].record.Some? && !InLatest(c.latest, n) :: KeyKept(h, n, c.files[n], at)
    ensures NamesNewest(c.latest, h[at])
  {
    forall n | n in h[at].files && n in c.files && c.files[n].record.Some? && !InLatest(c.latest, n)
      ensures RecordCovered(c.latest, h[at], n)
    {
      KeptIsCovered(h, c, at, n);
    }
    FastPathIsRightIff(h, c, at);
  }

  lemma KeptIsCovered(h: seq<Moment>, c: Cache, at: nat, n: string)
    requires CacheOk(h, c) && c.dirStamp.Some? && c.doneAt <= at < |h| && n in c.files && KeyKept(h, n, c.files[n], at)
    ensures RecordCovered(c.latest, h[at], n)
  {
    var f := c.files[n];
    assert Accounted(h, n, f, c.latest, c.dirAt, c.doneAt);
    hide CacheOk;
    var p :| Projects(h, n, f, p, c.dirAt, c.doneAt) && Covered(c.latest, p);
    KeptKey(h, n, f, at, p, c.dirAt, c.doneAt);
    SameKeyCovered(c.latest, p, RecordAt(h[at], n).value);
  }

  lemma KeptKey(h: seq<Moment>, n: string, f: CachedFile, at: nat, p: Record, from: nat, until: nat)
    requires KeyKept(h, n, f, at) && f.readAt <= until <= at < |h| && Projects(h, n, f, p, from, until)
    ensures RecordAt(h[at], n).Some? && SameKey(RecordAt(h[at], n).value, p)
  {
    var j: nat :| j <= until && (j == f.readAt || from <= j) && ProjectsAt(h, n, f, p, j);
    assert SameKey(RecordAt(h[j], n).value, f.record.value);
    assert SameKey(RecordAt(h[at], n).value, f.record.value);
  }

  lemma SameKeyCovered(latest: seq<Record>, p: Record, r: Record)
    requires Covered(latest, p) && SameKey(r, p)
    ensures Covered(latest, r)
  {
    var l :| l in latest && l.repository == p.repository && !Newer(p, l);
    assert l.repository == r.repository && !Newer(r, l);
  }

  // ---------------------------------------------------------------- against a full rescan

  function Key(r: Record): Record { Record(r.id, r.repository, r.startedAt, "", "") }

  function Keys(records: seq<Record>): seq<Record> {
    seq(|records|, i requires 0 <= i < |records| => Key(records[i]))
  }

  /** What a scan leaves behind when nothing happens from its start to its end, at one moment. */
  ghost predicate ScannedAt(h: seq<Moment>, c: Cache, at: nat) {
    FilesOk(h, c.files) && Scanned(h, c) && c.dirAt == at && c.listedAt == at && c.doneAt == at
  }

  lemma CachedAt(h: seq<Moment>, c: Cache, at: nat, n: string)
    requires ScannedAt(h, c, at)
    ensures Has(h[at], n) <==> n in c.files
    ensures n in c.files ==> c.files[n].record == RecordAt(h[at], n)
  {
    if n in c.files { assert SeenBetween(h, n, c.files[n].record, at, at); }
  }

  lemma ProjectedKey(h: seq<Moment>, n: string, f: CachedFile, p: Record, at: nat)
    requires at < |h| && CachedOk(h, n, f) && f.record == RecordAt(h[at], n) && Projects(h, n, f, p, at, at)
    ensures RecordAt(h[at], n).Some? && SameKey(RecordAt(h[at], n).value, p)
  {
    var j: nat :| j <= at && (j == f.readAt || at <= j) && ProjectsAt(h, n, f, p, j);
  }

  /** An undisturbed rescan names the newest run of every repository, whatever liveness made of the runs
      that are still going. */
  lemma RescanNamesNewest(h: seq<Moment>, c: Cache, at: nat)
    requires ScannedAt(h, c, at)
    ensures NamesNewest(c.latest, h[at])
  {
    forall p | p in c.latest ensures KeyOnDisk(h[at], p) {
      assert FromFile(h, c.files, p, at, at);
      CachedAt(h, c, at, Name(p));
      assert CachedOk(h, Name(p), c.files[Name(p)]);
      ProjectedKey(h, Name(p), c.files[Name(p)], p, at);
    }
    forall n | n in h[at].files ensures RecordCovered(c.latest, h[at], n) {
      CachedAt(h, c, at, n);
      if RecordAt(h[at], n).Some? {
        assert Accounted(h, n, c.files[n], c.latest, at, at);
        var p :| Projects(h, n, c.files[n], p, at, at) && Covered(c.latest, p);
        assert CachedOk(h, n, c.files[n]);
        ProjectedKey(h, n, c.files[n], p, at);
        SameKeyCovered(c.latest, p, RecordAt(h[at], n).value);
      }
    }
  }

  ghost predicate OnePerRepository(latest: seq<Record>) {
    forall i, j | 0 <= i < j < |latest| :: latest[i].repository != latest[j].repository
  }

  lemma NewestKeyIsThere(a: seq<Record>, b: seq<Record>, m: Moment, p: Record)
    requires NamesNewest(a, m) && NamesNewest(b, m) && OnePerRepository(a) && p in a
    ensures Key(p) in Keys(b)
  {
    assert KeyOnDisk(m, p) && RecordCovered(b, m, Name(p));
    var r := RecordAt(m, Name(p)).value;
    var q :| q in b && q.repository == r.repository && !Newer(r, q);
    assert KeyOnDisk(m, q) && RecordCovered(a, m, Name(q));
    var t := RecordAt(m, Name(q)).value;
    var l :| l in a && l.repository == t.repository && !Newer(t, l);
    assert l == p;
    NewerIsTotal(p, q);
    assert Key(p) == Key(q);
    var k :| 0 <= k < |b| && b[k] == q;
    assert Keys(b)[k] == Key(q);
  }

  lemma KeysOfNewest(a: seq<Record>, m: Moment)
    requires NamesNewest(a, m) && OnePerRepository(a) && Descending(a)
    ensures Descending(Keys(a)) && DistinctIds(Keys(a))
  {
    forall i, j | 0 <= i < j < |a| ensures a[i].id != a[j].id {
      assert KeyOnDisk(m, a[i]) && KeyOnDisk(m, a[j]);
    }
  }

  /** There is only one list of keys that names the newest runs of a moment. */
  lemma NewestKeysAreUnique(a: seq<Record>, b: seq<Record>, m: Moment)
    requires NamesNewest(a, m) && OnePerRepository(a) && Descending(a)
    requires NamesNewest(b, m) && OnePerRepository(b) && Descending(b)
    ensures Keys(a) == Keys(b)
  {
    KeysOfNewest(a, m);
    KeysOfNewest(b, m);
    forall k ensures k in Keys(a) <==> k in Keys(b) {
      if k in Keys(a) {
        var i :| 0 <= i < |a| && Key(a[i]) == k;
        NewestKeyIsThere(a, b, m, a[i]);
      }
      if k in Keys(b) {
        var i :| 0 <= i < |b| && Key(b[i]) == k;
        NewestKeyIsThere(b, a, m, b[i]);
      }
    }
    DescendingIsUnique(Keys(a), Keys(b));
  }

  lemma KeysDecide(a: seq<Record>, b: seq<Record>, m: Moment)
    requires Keys(a) == Keys(b) && NamesNewest(b, m)
    ensures NamesNewest(a, m)
  {
    forall p | p in a ensures KeyOnDisk(m, p) {
      var i :| 0 <= i < |a| && a[i] == p;
      assert Keys(a)[i] == Keys(b)[i];
      assert KeyOnDisk(m, b[i]);
    }
    forall n | n in m.files ensures RecordCovered(a, m, n) {
      assert RecordCovered(b, m, n);
      if RecordAt(m, n).Some? {
        var l :| l in b && l.repository == RecordAt(m, n).value.repository && !Newer(RecordAt(m, n).value, l);
        var i :| 0 <= i < |b| && b[i] == l;
        assert Keys(a)[i] == Keys(b)[i];
        assert a[i] in a;
      }
    }
  }

  /** The fast path answers, place by place, with the keys that an undisturbed rescan of the moment answers
      with, if and only if no older, once readable file now holds a run newer than the answer. */
  lemma SameKeysAsRescan(h: seq<Moment>, c: Cache, at: nat, rescanned: Cache)
    requires Lawful(h) && CacheOk(h, c) && Fresh(h, c, at) && c.doneAt <= at && ScannedAt(h, rescanned, at)
    ensures Keys(c.latest) == Keys(rescanned.latest) <==> OlderCovered(h, c, at)
  {
    FastPathIsRightIff(h, c, at);
    RescanNamesNewest(h, rescanned, at);
    assert Descending(c.latest) && OnePerRepository(c.latest) && Descending(rescanned.latest) && OnePerRepository(rescanned.latest);
    hide CacheOk, Fresh, ScannedAt, Keys, Lawful, OlderCovered, NamesNewest;
    if OlderCovered(h, c, at) {
      NewestKeysAreUnique(c.latest, rescanned.latest, h[at]);
    } else if Keys(c.latest) == Keys(rescanned.latest) {
      KeysDecide(c.latest, rescanned.latest, h[at]);
    }
  }

  // ---------------------------------------------------------------- the timeline goes on

  lemma SeenLater(h: seq<Moment>, h': seq<Moment>, n: string, record: Option<Record>, from: nat, to: nat, to': nat)
    requires h <= h' && to <= to' && SeenBetween(h, n, record, from, to)
    ensures SeenBetween(h', n, record, from, to')
  {
    var k :| from <= k <= to && k < |h| && RecordAt(h[k], n) == record;
    assert RecordAt(h'[k], n) == record;
  }

  lemma AbsentLater(h: seq<Moment>, h': seq<Moment>, n: string, from: nat, to: nat, to': nat)
    requires h <= h' && to <= to' && AbsentBetween(h, n, from, to)
    ensures AbsentBetween(h', n, from, to')
  {
    var k :| from <= k <= to && k < |h| && !Has(h[k], n);
    assert !Has(h'[k], n);
  }

  lemma ProjectsLater(h: seq<Moment>, h': seq<Moment>, n: string, f: CachedFile, p: Record, from: nat, until: nat, until': nat)
    requires h <= h' && until <= until' && Projects(h, n, f, p, from, until)
    ensures Projects(h', n, f, p, from, until')
  {
    var j: nat :| j <= until && (j == f.readAt || from <= j) && ProjectsAt(h, n, f, p, j);
    assert ProjectsAt(h', n, f, p, j);
  }

  lemma FilesLater(h: seq<Moment>, h': seq<Moment>, files: map<string, CachedFile>)
    requires h <= h' && FilesOk(h, files)
    ensures FilesOk(h', files)
  {
    forall n | n in files ensures CachedOk(h', n, files[n]) {
      assert CachedOk(h, n, files[n]);
    }
  }

  lemma CompleteLater(h: seq<Moment>, h': seq<Moment>, files: map<string, CachedFile>, dirAt: nat, listedAt: nat, doneAt: nat, doneAt': nat)
    requires h <= h' && doneAt <= doneAt' && Complete(h, files, dirAt, listedAt, doneAt)
    ensures Complete(h', files, dirAt, listedAt, doneAt')
  {
    forall n | n in files ensures SeenBetween(h', n, files[n].record, dirAt, doneAt') {
      SeenLater(h, h', n, files[n].record, dirAt, doneAt, doneAt');
    }
    forall n | n in h[listedAt].files && n !in files ensures AbsentBetween(h', n, listedAt, doneAt') {
      AbsentLater(h, h', n, listedAt, doneAt, doneAt');
    }
  }

  lemma LatestLater(h: seq<Moment>, h': seq<Moment>, c: Cache)
    requires h <= h' && LatestOk(h, c)
    ensures LatestOk(h', c)
  {
    forall p | p in c.latest ensures FromFile(h', c.files, p, c.dirAt, c.doneAt) {
      assert FromFile(h, c.files, p, c.dirAt, c.doneAt);
      ProjectsLater(h, h', Name(p), c.files[Name(p)], p, c.dirAt, c.doneAt, c.doneAt);
    }
    forall n | n in c.files ensures Accounted(h', n, c.files[n], c.latest, c.dirAt, c.doneAt) {
      assert Accounted(h, n, c.files[n], c.latest, c.dirAt, c.doneAt);
      if c.files[n].record.Some? {
        var p :| Projects(h, n, c.files[n], p, c.dirAt, c.doneAt) && Covered(c.latest, p);
        ProjectsLater(h, h', n, c.files[n], p, c.dirAt, c.doneAt, c.doneAt);
      }
    }
  }

  lemma CacheLater(h: seq<Moment>, h': seq<Moment>, c: Cache)
    requires h <= h' && CacheOk(h, c)
    ensures CacheOk(h', c)
  {
    FilesLater(h, h', c.files);
    if c.dirStamp.Some? {
      CompleteLater(h, h', c.files, c.dirAt, c.listedAt, c.doneAt, c.doneAt);
      LatestLater(h, h', c);
    }
  }

  // ---------------------------------------------------------------- one scan

  /** Where a scan stands: files inspected so far are in the cache with what was found, or were gone. */
  ghost predicate Scanning(h: seq<Moment>, files: map<string, CachedFile>, left: set<string>, seen: set<string>,
                           dirAt: nat, listedAt: nat)
  {
    && h != [] && dirAt <= listedAt < |h| && h[listedAt].Listing? && FilesOk(h, files)
    && left <= h[listedAt].files.Keys && seen <= h[listedAt].files.Keys - left
    && (forall n | n in seen :: n in files && SeenBetween(h, n, files[n].record, dirAt, |h| - 1))
    && (forall n | n in h[listedAt].files && n !in left && n !in seen :: AbsentBetween(h, n, listedAt, |h| - 1))
  }

  lemma ScanningLater(h: seq<Moment>, h': seq<Moment>, files: map<string, CachedFile>, left: set<string>, seen: set<string>,
                      dirAt: nat, listedAt: nat)
    requires h <= h' && Scanning(h, files, left, seen, dirAt, listedAt)
    ensures Scanning(h', files, left, seen, dirAt, listedAt)
  {
    FilesLater(h, h', files);
    forall n | n in seen ensures SeenBetween(h', n, files[n].record, dirAt, |h'| - 1) {
      SeenLater(h, h', n, files[n].record, dirAt, |h| - 1, |h'| - 1);
    }
    forall n | n in h[listedAt].files && n !in left && n !in seen ensures AbsentBetween(h', n, listedAt, |h'| - 1) {
      AbsentLater(h, h', n, listedAt, |h| - 1, |h'| - 1);
    }
  }

  lemma ScanningGone(h: seq<Moment>, files: map<string, CachedFile>, left: set<string>, seen: set<string>, dirAt: nat, listedAt: nat, n: string)
    requires Scanning(h, files, left, seen, dirAt, listedAt) && n in left && !Has(h[|h|-1], n)
    ensures Scanning(h, files, left - {n}, seen, dirAt, listedAt)
  {
    assert AbsentBetween(h, n, listedAt, |h| - 1);
  }

  lemma ScanningSame(h: seq<Moment>, files: map<string, CachedFile>, left: set<string>, seen: set<string>, dirAt: nat, listedAt: nat, n: string)
    requires Scanning(h, files, left, seen, dirAt, listedAt) && n in left && Lawful(h)
    requires Has(h[|h|-1], n) && n in files && files[n].stamp.Some? && h[|h|-1].files[n].stamp == files[n].stamp
    ensures Scanning(h, files, left - {n}, seen + {n}, dirAt, listedAt)
  {
    assert CachedOk(h, n, files[n]);
    SameFile(h, n, files[n].stampAt, |h| - 1, files[n].readAt);
    SameFile(h, n, files[n].stampAt, |h| - 1, |h| - 1);
    assert RecordAt(h[|h|-1], n) == files[n].record;
    assert SeenBetween(h, n, files[n].record, dirAt, |h| - 1);
  }

  lemma ScanningRead(h: seq<Moment>, files: map<string, CachedFile>, left: set<string>, seen: set<string>, dirAt: nat, listedAt: nat,
                     n: string, f: CachedFile)
    requires Scanning(h, files, left, seen, dirAt, listedAt) && n in left && CachedOk(h, n, f) && f.readAt == |h| - 1
    ensures Scanning(h, files[n := f], left - {n}, seen + {n}, dirAt, listedAt)
  {
    assert SeenBetween(h, n, f.record, dirAt, |h| - 1);
  }

  /** The records of the files, as far as they were projected. */
  ghost predicate Projecting(h: seq<Moment>, files: map<string, CachedFile>, left: set<string>, records: seq<Record>, from: nat) {
    && h != []
    && (forall p | p in records :: FromFile(h, files, p, from, |h| - 1))
    && (forall n {:trigger HasProjection(h, n, files, records, from)} | n in files && n !in left :: HasProjection(h, n, files, records, from))
  }

  ghost predicate HasProjection(h: seq<Moment>, n: string, files: map<string, CachedFile>, records: seq<Record>, from: nat)
    requires h != [] && n in files
  {
    files[n].record.Some? ==> exists p | p in records :: Projects(h, n, files[n], p, from, |h| - 1)
  }

  lemma ProjectingLater(h: seq<Moment>, h': seq<Moment>, files: map<string, CachedFile>, left: set<string>, records: seq<Record>, from: nat)
    requires h <= h' && Projecting(h, files, left, records, from)
    ensures Projecting(h', files, left, records, from)
  {
    forall p | p in records ensures FromFile(h', files, p, from, |h'| - 1) {
      assert FromFile(h, files, p, from, |h| - 1);
      ProjectsLater(h, h', Name(p), files[Name(p)], p, from, |h| - 1, |h'| - 1);
    }
    forall n | n in files && n !in left ensures HasProjection(h', n, files, records, from) {
      assert HasProjection(h, n, files, records, from);
      if files[n].record.Some? {
        var p :| p in records && Projects(h, n, files[n], p, from, |h| - 1);
        ProjectsLater(h, h', n, files[n], p, from, |h| - 1, |h'| - 1);
      }
    }
  }

  lemma ProjectingOne(h: seq<Moment>, files: map<string, CachedFile>, left: set<string>, records: seq<Record>, n: string, p: Record, from: nat)
    requires Projecting(h, files, left, records, from) && n in left && n in files && Name(p) == n && Projects(h, n, files[n], p, from, |h| - 1)
    ensures Projecting(h, files, left - {n}, records + [p], from)
  {
    assert FromFile(h, files, p, from, |h| - 1);
    forall k | k in files && k !in left - {n} ensures HasProjection(h, k, files, records + [p], from) {
      if k != n {
        assert HasProjection(h, k, files, records, from);
        if files[k].record.Some? {
          var q :| q in records && Projects(h, k, files[k], q, from, |h| - 1);
          assert q in records + [p];
        }
      } else {
        assert p in records + [p];
      }
    }
  }

  lemma ScanDone(h: seq<Moment>, files: map<string, CachedFile>, seen: set<string>, dirAt: nat, listedAt: nat)
    requires Scanning(h, files, {}, seen, dirAt, listedAt)
    ensures var kept := map n | n in files && n in seen :: files[n];
      FilesOk(h, kept) && Complete(h, kept, dirAt, listedAt, |h| - 1)
  {
  }

  lemma LatestFound(h: seq<Moment>, files: map<string, CachedFile>, records: seq<Record>, c: Cache, from: nat)
    requires Projecting(h, files, {}, records, from) && IsLatest(c.latest, records) && c.files == files && c.dirAt == from && c.doneAt == |h| - 1
    ensures LatestOk(h, c)
  {
    forall n | n in files ensures Accounted(h, n, files[n], c.latest, from, |h| - 1) {
      assert HasProjection(h, n, files, records, from);
      if files[n].record.Some? {
        var p :| p in records && Projects(h, n, files[n], p, from, |h| - 1);
        assert Covered(c.latest, p);
      }
    }
  }

  // ---------------------------------------------------------------- the program

  class WorkspaceTaskRunRecords {
    var cache: Cache
    var history: seq<Moment>
    const alone: bool

    constructor (now: Moment, alone: bool)
      requires Lawful([now])
      ensures Valid() && history == [now] && cache == EMPTY && this.alone == alone
    {
      history, cache, this.alone := [now], EMPTY, alone;
    }

    ghost predicate Valid()
      reads this
    {
      Lawful(history) && CacheOk(history, cache)
    }

    function Last(): nat
      requires history != []
      reads this
    {
      |history| - 1
    }

    /** Whatever others do to the directory. The lock keeps the cache to this call. */
    method Interfere()
      requires Lawful(history)
      modifies this`history
      ensures Lawful(history) && old(history) <= history && (alone ==> history == old(history))
    {
      var h: seq<Moment> := *;
      if !alone && history <= h && Lawful(h) { history := h; }
    }

    /** Whether a file still has the stamp it was cached with. */
    method IsUnchanged(n: string, f: CachedFile, ghost at: nat) returns (same: bool)
      requires Lawful(history) && at <= Last() && (alone ==> at == Last())
      modifies this`history
      ensures Lawful(history) && old(history) <= history && (alone ==> history == old(history))
      ensures same ==> Unchanged(history, n, f, at)
      ensures alone && !same ==> !Unchanged(history, n, f, at)
    {
      Interfere();
      same := Has(history[Last()], n) && f.stamp.Some? && history[Last()].files[n].stamp == f.stamp;
    }

    method IsFresh(stamp: Option<nat>, ghost at: nat) returns (valid: bool)
      requires Lawful(history) && at <= Last() && (alone ==> at == Last())
      requires history[at].Listing? && history[at].stamp == stamp
      modifies this`history
      ensures Lawful(history) && old(history) <= history && (alone ==> history == old(history))
      ensures valid ==> Fresh(history, cache, at)
      ensures alone && !valid ==> !Fresh(history, cache, at)
    {
      if stamp.None? || cache.dirStamp != stamp { return false; }
      if exists p | p in cache.latest :: p.state == RUNNING { return false; }
      hide Lawful;
      for i := 0 to |cache.latest|
        invariant Lawful(history) && old(history) <= history && (alone ==> history == old(history))
        invariant forall k | 0 <= k < i :: Name(cache.latest[k]) in cache.files && Unchanged(history, Name(cache.latest[k]), cache.files[Name(cache.latest[k])], at)
      {
        var n := Name(cache.latest[i]);
        if n !in cache.files { return false; }
        label before:
        var same := IsUnchanged(n, cache.files[n], at);
        if !same { return false; }
        forall k | 0 <= k < i ensures Unchanged(history, Name(cache.latest[k]), cache.files[Name(cache.latest[k])], at) {
          StillUnchanged(old@before(history), history, Name(cache.latest[k]), cache.files[Name(cache.latest[k])], at);
        }
      }
      valid := UnreadableAreUnchanged(at);
    }

    /** The second half of the check: files that could not be read before. */
    method UnreadableAreUnchanged(ghost at: nat) returns (valid: bool)
      requires Lawful(history) && at <= Last() && (alone ==> at == Last())
      requires forall p | p in cache.latest :: Name(p) in cache.files && Unchanged(history, Name(p), cache.files[Name(p)], at)
      modifies this`history
      ensures Lawful(history) && old(history) <= history && (alone ==> history == old(history))
      ensures valid ==>
        && (forall p | p in cache.latest :: Name(p) in cache.files && Unchanged(history, Name(p), cache.files[Name(p)], at))
        && (forall n | n in cache.files && cache.files[n].record.None? :: Unchanged(history, n, cache.files[n], at))
      ensures alone && !valid ==> exists n | n in cache.files && cache.files[n].record.None? :: !Unchanged(history, n, cache.files[n], at)
    {
      var left := cache.files.Keys;
      hide Lawful;
      while left != {}
        invariant Lawful(history) && old(history) <= history && (alone ==> history == old(history))
        invariant left <= cache.files.Keys
        invariant forall n | n in cache.files && n !in left && cache.files[n].record.None? :: Unchanged(history, n, cache.files[n], at)
        decreases |left|
      {
        var n :| n in left;
        left := left - {n};
        if cache.files[n].record.None? {
          label before:
          var same := IsUnchanged(n, cache.files[n], at);
          assert alone && !same ==> exists u | u in cache.files && cache.files[u].record.None? :: !Unchanged(history, u, cache.files[u], at);
          if !same { return false; }
          forall k | k in cache.files && k !in left && k != n && cache.files[k].record.None? ensures Unchanged(history, k, cache.files[k], at) {
            StillUnchanged(old@before(history), history, k, cache.files[k], at);
          }
        }
      }
      forall p | p in cache.latest ensures Unchanged(history, Name(p), cache.files[Name(p)], at) {
        StillUnchanged(old(history), history, Name(p), cache.files[Name(p)], at);
      }
      return true;
    }

    /** Inspects every listed file and reads those whose stamp is new or cannot be told. Entries of files
        that are no longer there are dropped. */
    method ScanFiles(ghost dirAt: nat) returns (done: bool, listedAt: nat)
      requires Valid() && dirAt <= Last()
      modifies this
      ensures Lawful(history) && old(history) <= history && (alone ==> history == old(history))
      ensures cache == old(cache).(files := cache.files)
      ensures !done ==> cache == old(cache)
      ensures alone ==> (done <==> old(history[Last()].Listing?))
      ensures done ==> dirAt <= listedAt <= Last() && FilesOk(history, cache.files)
                       && Complete(history, cache.files, dirAt, listedAt, Last())
                       && forall n | n in cache.files :: cache.files[n].readAt <= Last()
    {
      Interfere();
      listedAt := Last();
      if !history[Last()].Listing? { return false, listedAt; }
      var left := history[Last()].files.Keys;
      var seen: set<string> := {};
      FilesLater(old(history), history, cache.files);
      hide Lawful, FilesOk, Complete, DirSteady, FilesSteady, Bound;
      while left != {}
        invariant Lawful(history) && old(history) <= history && (alone ==> history == old(history))
        invariant cache == old(cache).(files := cache.files)
        invariant Scanning(history, cache.files, left, seen, dirAt, listedAt)
        decreases |left|
      {
        var n :| n in left;
        seen := ScanFile(n, left, seen, dirAt, listedAt);
        left := left - {n};
      }
      ScanDone(history, cache.files, seen, dirAt, listedAt);
      cache := cache.(files := map n | n in cache.files && n in seen :: cache.files[n]);
      KeptAreRead(history, cache.files);
      return true, listedAt;
    }

    method ScanFile(n: string, ghost left: set<string>, seen: set<string>, ghost dirAt: nat, ghost listedAt: nat)
      returns (seen': set<string>)
      requires Lawful(history) && n in left && Scanning(history, cache.files, left, seen, dirAt, listedAt)
      modifies this
      ensures Lawful(history) && old(history) <= history && (alone ==> history == old(history))
      ensures cache == old(cache).(files := cache.files)
      ensures Scanning(history, cache.files, left - {n}, seen', dirAt, listedAt)
    {
      hide Scanning, Lawful;
      label start:
      Interfere();
      ScanningLater(old@start(history), history, cache.files, left, seen, dirAt, listedAt);
      var stampAt := |history| - 1;
      if !Has(history[stampAt], n) {
        ScanningGone(history, cache.files, left, seen, dirAt, listedAt, n);
        return seen;
      }
      var stamp := history[stampAt].files[n].stamp;
      if n in cache.files && stamp.Some? && cache.files[n].stamp == stamp {
        ScanningSame(history, cache.files, left, seen, dirAt, listedAt, n);
        return seen + {n};
      }
      label inspected:
      Interfere();
      ScanningLater(old@inspected(history), history, cache.files, left, seen, dirAt, listedAt);
      var f := CachedFile(stamp, RecordAt(history[|history|-1], n), stampAt, |history| - 1);
      assert history[stampAt] == old@inspected(history)[stampAt];
      ScanningRead(history, cache.files, left, seen, dirAt, listedAt, n, f);
      cache := cache.(files := cache.files[n := f]);
      return seen + {n};
    }

    /** Projects liveness: runs that are still going are read once more, and shown as stopped if no process
        of theirs is left. Either may not happen, when the budget is used up or processes cannot be listed. */
    method ProjectLiveness(ghost from: nat) returns (records: seq<Record>)
      requires Lawful(history) && FilesOk(history, cache.files) && from <= Last()
      modifies this`history
      ensures Lawful(history) && old(history) <= history && (alone ==> history == old(history))
      ensures Projecting(history, cache.files, {}, records, from)
    {
      var left := cache.files.Keys;
      records := [];
      ProjectingNone(history, cache.files, left, from);
      hide Lawful, FilesOk, Projecting;
      while left != {}
        invariant Lawful(history) && FilesOk(history, cache.files)
        invariant old(history) <= history && (alone ==> history == old(history))
        invariant Projecting(history, cache.files, left, records, from) && left <= cache.files.Keys
        decreases |left|
      {
        var n :| n in left;
        var f := cache.files[n];
        if f.record.Some? {
          label before:
          var p := ProjectRecord(n, f, from);
          FilesLater(old@before(history), history, cache.files);
          ProjectingLater(old@before(history), history, cache.files, left, records, from);
          ProjectingOne(history, cache.files, left, records, n, p, from);
          records := records + [p];
        } else {
          ProjectingSkip(history, cache.files, left, records, n, from);
        }
        left := left - {n};
      }
    }

    method ProjectRecord(n: string, f: CachedFile, ghost from: nat) returns (p: Record)
      requires Lawful(history) && f.record.Some? && n in cache.files && cache.files[n] == f && FilesOk(history, cache.files) && from <= Last()
      modifies this`history
      ensures Lawful(history) && old(history) <= history && (alone ==> history == old(history))
      ensures Name(p) == n && Projects(history, n, f, p, from, |history| - 1)
    {
      p := f.record.value;
      assert CachedOk(history, n, f);
      assert Bound(history[f.readAt]);
      ghost var at := f.readAt;
      if p.state == RUNNING {
        Interfere();
        var again := RecordAt(history[|history|-1], n);
        var rereads: bool, stale: bool, rest: string := *, *, *;
        if rereads && again.Some? && again.value.id == p.id && again.value.repository == p.repository {
          p, at := again.value, |history| - 1;
        }
        if p.state == RUNNING && stale {
          p := p.(state := STOPPED, rest := rest);
        }
      }
      assert ProjectsAt(history, n, f, p, at);
    }

    /** The newest run of each repository. `at` is the moment the directory was inspected. */
    method ReadLatest() returns (r: Result<seq<Record>, Error>, ghost fast: bool, at: nat)
      requires Valid()
      modifies this
      ensures Valid() && old(history) <= history && (alone ==> history == old(history))
      ensures old(Last()) <= at <= Last()
      ensures fast ==> r == Ok(old(cache).latest) && cache == old(cache) && Fresh(history, cache, at)
      ensures alone && Fresh(history, old(cache), at) ==> fast
      ensures !fast && r.Ok? && history[at].Gone? ==> r.value == [] && cache == EMPTY
      ensures !fast && r.Ok? && !history[at].Gone? ==> r.value == cache.latest && Scanned(history, cache) && cache.dirAt == at
      ensures r.Err? ==> cache == old(cache)
      ensures alone ==> (r.Err? <==> history[at].Unreadable?)
      ensures alone && r.Ok? && !fast && history[at].Listing? ==> NamesNewest(r.value, history[at])
      ensures alone && fast ==> (NamesNewest(r.value, history[at]) <==> OlderCovered(history, old(cache), at))
    {
      fast := false;
      Interfere();
      at := Last();
      CacheLater(old(history), history, cache);
      label looked:
      var directory := history[Last()];
      if directory.Gone? {
        cache := EMPTY;
        return Ok([]), false, at;
      }
      if directory.Unreadable? { return Err(RecordReadFailed), false, at; }
      DoneBefore(old(history), old(cache));
      hide Lawful, CacheOk, Fresh, LatestOk, Complete, FilesOk, NamesNewest, OlderCovered, ScannedAt, Scanned;
      var valid := IsFresh(directory.stamp, at);
      CacheLater(old@looked(history), history, cache);
      if valid {
        FreshHasStamp(history, cache, at);
        FastPathIsRightIff(history, cache, at);
        return Ok(cache.latest), true, at;
      }
      label stale:
      CacheLater(old@looked(history), history, cache);
      r := Rescan(directory.stamp, at);
    }

    /** Scans the directory, projects liveness and picks the newest run of each repository. */
    method Rescan(stamp: Option<nat>, at: nat) returns (r: Result<seq<Record>, Error>)
      requires Valid() && at <= Last() && history[at].Listing? && history[at].stamp == stamp
      modifies this
      ensures Valid() && old(history) <= history && (alone ==> history == old(history))
      ensures r.Ok? ==> r.value == cache.latest && Scanned(history, cache) && cache.dirAt == at
      ensures r.Err? ==> cache == old(cache)
      ensures alone && old(history[Last()].Listing?) ==> r.Ok?
      ensures alone && at == old(Last()) && r.Ok? ==> ScannedAt(history, cache, at) && NamesNewest(r.value, history[at])
    {
      hide Lawful, CacheOk, Fresh, LatestOk, Complete, FilesOk, Scanned, IsLatest, Projecting, NamesNewest;
      var done, listedAt := ScanFiles(at);
      if !done {
        CacheLater(old(history), history, cache);
        return Err(RecordReadFailed);
      }
      label scanned:
      var records := ProjectLiveness(at);
      var latest := LatestByRepository(records);
      CompleteLater(old@scanned(history), history, cache.files, at, listedAt, |old@scanned(history)| - 1, |history| - 1);
      FilesLater(old@scanned(history), history, cache.files);
      cache := Cache(stamp, cache.files, latest, at, listedAt, |history| - 1);
      LatestFound(history, cache.files, records, cache, at);
      ScannedNow(history, cache);
      if alone && at == old(Last()) { RescanNamesNewest(history, cache, at); }
      return Ok(latest);
    }
  }

  lemma DoneBefore(h: seq<Moment>, c: Cache)
    requires CacheOk(h, c)
    ensures c.dirStamp.Some? ==> c.doneAt < |h|
  {
  }

  lemma FreshHasStamp(h: seq<Moment>, c: Cache, at: nat)
    requires Fresh(h, c, at)
    ensures c.dirStamp.Some? && at < |h| && h[at].Listing?
  {
  }

  lemma ScannedNow(h: seq<Moment>, c: Cache)
    requires c.dirAt <= c.listedAt <= c.doneAt < |h| && h[c.dirAt].Listing? && h[c.dirAt].stamp == c.dirStamp
    requires FilesOk(h, c.files) && (forall n | n in c.files :: c.files[n].readAt <= c.doneAt)
    requires Complete(h, c.files, c.dirAt, c.listedAt, c.doneAt) && LatestOk(h, c)
    ensures Scanned(h, c) && CacheOk(h, c)
  {
  }

  lemma KeptAreRead(h: seq<Moment>, files: map<string, CachedFile>)
    requires FilesOk(h, files) && h != []
    ensures forall n | n in files :: files[n].readAt <= |h| - 1
  {
    forall n | n in files ensures files[n].readAt <= |h| - 1 { assert CachedOk(h, n, files[n]); }
  }

  lemma ProjectingNone(h: seq<Moment>, files: map<string, CachedFile>, left: set<string>, from: nat)
    requires h != [] && files.Keys <= left
    ensures Projecting(h, files, left, [], from)
  {
  }

  lemma ProjectingSkip(h: seq<Moment>, files: map<string, CachedFile>, left: set<string>, records: seq<Record>, n: string, from: nat)
    requires Projecting(h, files, left, records, from) && n in files && files[n].record.None?
    ensures Projecting(h, files, left - {n}, records, from)
  {
    forall k | k in files && k !in left - {n} ensures HasProjection(h, k, files, records, from) {
      assert k != n ==> HasProjection(h, k, files, records, from);
    }
  }

  lemma StillUnchanged(h: seq<Moment>, h': seq<Moment>, n: string, f: CachedFile, at: nat)
    requires h <= h' && Unchanged(h, n, f, at)
    ensures Unchanged(h', n, f, at)
  {
    var k :| at <= k < |h| && Has(h[k], n) && h[k].files[n].stamp == f.stamp;
    assert h'[k] == h[k];
  }
}
