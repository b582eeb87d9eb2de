/** The twenty newest task runs, read within a budget and helped by a cache of completed runs.

    An observation is what one call sees of one directory entry. Inspecting a file and reading it is one
    step here, and a file with the same stamp is taken to hold the same content.
 */
module TaskRunSummary {
  import opened Prelude
  import opened TaskRuns

  type Path = string

  const LIMIT := 20
  const SCAN_LIMIT := 20000
  const MAX_RECORD_BYTES := 1048576
  const MAX_ENTRIES := 10000
  const MAX_PAYLOAD_BYTES := 8388608

  /** `Broken`: the entry could not be listed. `Other`: not a JSON file. `Odd`: a JSON name that is no
      regular file. `record` is None if the content is malformed or not visible to the workspace. */
  datatype Observation =
    | Broken
    | Other
    | Odd(path: Path)
    | Json(path: Path, stamp: Option<nat>, size: nat, record: Option<Record>)

  datatype Cached = Cached(stamp: nat, summary: Record, payload: nat)

  datatype Cache = Cache(files: map<Path, Cached>, payloadBytes: nat)

  /** Where one scan stands. */
  datatype Progress = Progress(
    records: seq<Record>, running: seq<Record>, seen: set<Path>, incomplete: bool, remaining: nat, cache: Cache)

  // ---------------------------------------------------------------- the cache

  ghost function Sum(files: map<Path, Cached>): nat {
    if files == map[] then 0
    else
      var p :| p in files;
      files[p].payload + Sum(files - {p})
  }

  lemma {:induction false} SumWithout(files: map<Path, Cached>, p: Path)
    requires p in files
    ensures Sum(files) == files[p].payload + Sum(files - {p})
    decreases |files|
  {
    var q :| q in files && Sum(files) == files[q].payload + Sum(files - {q});
    if q != p {
      SumWithout(files - {q}, p);
      SumWithout(files - {p}, q);
      assert files - {q} - {p} == files - {p} - {q};
    }
  }

  lemma SumWith(files: map<Path, Cached>, p: Path, c: Cached)
    requires p !in files
    ensures Sum(files[p := c]) == Sum(files) + c.payload && |files[p := c]| == |files| + 1
  {
    SumWithout(files[p := c], p);
    assert files[p := c] - {p} == files;
    assert files[p := c].Keys == files.Keys + {p};
  }

  /** The caps, and the counter that stands for the sum of what is retained. */
  ghost predicate Capped(c: Cache) {
    |c.files| <= MAX_ENTRIES && c.payloadBytes <= MAX_PAYLOAD_BYTES && c.payloadBytes == Sum(c.files)
  }

  function Get(c: Cache, path: Path, stamp: Option<nat>): Option<Record> {
    if path in c.files && Some(c.files[path].stamp) == stamp then Some(c.files[path].summary) else None
  }

  function Remove(c: Cache, path: Path): (r: Cache)
    requires path in c.files ==> c.files[path].payload <= c.payloadBytes
  {
    if path in c.files then Cache(c.files - {path}, c.payloadBytes - c.files[path].payload) else c
  }

  /** `rest` stands for the task and the end time. */
  function Payload(path: Path, r: Record): nat {
    2 * |path| + |r.id| + |r.repository| + |r.startedAt| + |r.state| + |r.rest|
  }

  predicate HasRoom(c: Cache, payload: nat) {
    |c.files| < MAX_ENTRIES && c.payloadBytes + payload <= MAX_PAYLOAD_BYTES
  }

  function Insert(c: Cache, path: Path, stamp: Option<nat>, r: Record): Cache
    requires path !in c.files
  {
    if stamp.Some? && r.state != RUNNING && HasRoom(c, Payload(path, r))
    then Cache(c.files[path := Cached(stamp.value, r, Payload(path, r))], c.payloadBytes + Payload(path, r))
    else c
  }

  lemma RemoveKeepsCaps(c: Cache, path: Path)
    requires Capped(c)
    ensures path in c.files ==> c.files[path].payload <= c.payloadBytes
    ensures Capped(Remove(c, path))
  {
    if path in c.files {
      SumWithout(c.files, path);
      assert (c.files - {path}).Keys == c.files.Keys - {path};
    }
  }

  lemma InsertKeepsCaps(c: Cache, path: Path, stamp: Option<nat>, r: Record)
    requires Capped(c) && path !in c.files
    ensures Capped(Insert(c, path, stamp, r))
  {
    if stamp.Some? { SumWith(c.files, path, Cached(stamp.value, r, Payload(path, r))); }
  }

  function Retained(c: Cache, seen: set<Path>): map<Path, Cached> {
    KeptOf(c.files, seen)
  }

  function KeptOf(files: map<Path, Cached>, seen: set<Path>): map<Path, Cached> {
    map p | p in files && p in seen :: files[p]
  }

  lemma {:induction false} RetainKeepsCaps(files: map<Path, Cached>, seen: set<Path>)
    ensures Sum(KeptOf(files, seen)) <= Sum(files) && |KeptOf(files, seen)| <= |files|
    decreases |files|
  {
    if files == map[] {
      assert KeptOf(files, seen) == map[];
    } else {
      var p :| p in files;
      var rest := files - {p};
      assert |rest.Keys| == |files.Keys - {p}| && |rest| == |rest.Keys|;
      SumWithout(files, p);
      RetainKeepsCaps(rest, seen);
      if p in seen {
        SumWith(KeptOf(rest, seen), p, files[p]);
        assert KeptOf(files, seen) == KeptOf(rest, seen)[p := files[p]];
      } else {
        assert KeptOf(files, seen) == KeptOf(rest, seen);
      }
    }
  }

  // ---------------------------------------------------------------- one scan, as a function

  /** Reads a record within the budget. A file larger than what is left is refused without being read; a
      file that was read is charged even if it is malformed. */
  function ReadRecord(o: Observation, remaining: nat): (Option<Record>, nat)
    requires o.Json?
  {
    if o.size > MAX_RECORD_BYTES || o.size > remaining then (None, remaining)
    else (o.record, remaining - o.size)
  }

  /** What the counter of the cache is good for: no entry counts for more. */
  predicate StepAllowed(p: Progress, o: Observation) {
    o.Json? || o.Odd? ==> o.path in p.cache.files ==> p.cache.files[o.path].payload <= p.cache.payloadBytes
  }

  function Step(p: Progress, o: Observation): Progress
    requires StepAllowed(p, o)
  {
    match o
    case Broken => p.(incomplete := true)
    case Other => p
    case Odd(path) => p.(seen := p.seen + {path}, cache := Remove(p.cache, path), incomplete := true)
    case Json(path, stamp, _, _) =>
      var seen := p.seen + {path};
      var hit := Get(p.cache, path, stamp);
      if hit.Some? then p.(seen := seen, records := p.records + [hit.value])
      else
        var cache := Remove(p.cache, path);
        if p.remaining == 0 then p.(seen := seen, cache := cache, incomplete := true)
        else
          var (record, remaining) := ReadRecord(o, p.remaining);
          if record.None? then p.(seen := seen, cache := cache, incomplete := true, remaining := remaining)
          else
            p.(seen := seen, remaining := remaining, records := p.records + [record.value],
               running := if record.value.state == RUNNING then p.running + [record.value] else p.running,
               cache := if record.value.state == RUNNING then cache else Insert(cache, path, stamp, record.value))
  }

  lemma StepKeepsCaps(p: Progress, o: Observation)
    requires Capped(p.cache)
    ensures StepAllowed(p, o)
    ensures Capped(Step(p, o).cache)
  {
    if o.Json? || o.Odd? {
      RemoveKeepsCaps(p.cache, o.path);
      if o.Json? {
        var (record, remaining) := ReadRecord(o, p.remaining);
        if record.Some? { InsertKeepsCaps(Remove(p.cache, o.path), o.path, o.stamp, record.value); }
      }
    }
  }

  ghost function Scan(listing: seq<Observation>, budget: nat, cache: Cache): (p: Progress)
    requires Capped(cache)
    ensures Capped(p.cache)
  {
    if listing == [] then Progress([], [], {}, false, budget, cache)
    else
      var before := Scan(listing[..|listing|-1], budget, cache);
      StepKeepsCaps(before, listing[|listing|-1]);
      Step(before, listing[|listing|-1])
  }

  function Bounded(listing: seq<Observation>): seq<Observation> {
    if |listing| <= SCAN_LIMIT then listing else listing[..SCAN_LIMIT]
  }

  // ---------------------------------------------------------------- what the answer is

  /** What the files held, in the order of the directory. */
  function All(listing: seq<Observation>): seq<Record> {
    if listing == [] then []
    else
      var o := listing[|listing|-1];
      All(listing[..|listing|-1]) + if o.Json? && o.record.Some? then [o.record.value] else []
  }

  /** The JSON files all hold visible records, and nothing else stands in the way. */
  predicate AllReadable(listing: seq<Observation>) {
    forall o | o in listing :: o.Other? || (o.Json? && o.record.Some?)
  }

  /** Cached summaries are of completed runs, and are what a file with that stamp holds. */
  ghost predicate CacheTrue(c: Cache, listing: seq<Observation>) {
    && (forall p | p in c.files :: c.files[p].summary.state != RUNNING && c.files[p].payload == Payload(p, c.files[p].summary))
    && (forall o | o in listing && o.Json? && o.stamp.Some? && o.path in c.files && c.files[o.path].stamp == o.stamp.value ::
          o.record == Some(c.files[o.path].summary))
  }

  /** The same path is listed once, so stamps of one path cannot disagree within a listing. */
  ghost predicate PathsDistinct(listing: seq<Observation>) {
    forall i, j | 0 <= i < j < |listing| && listing[i].Json? && listing[j].Json? :: listing[i].path != listing[j].path
  }

  ghost predicate IsTop(top: seq<Record>, all: seq<Record>) {
    exists sorted :: Descending(sorted) && SameRecords(sorted, all) && top == FirstOf(sorted)
  }

  function FirstOf(records: seq<Record>): seq<Record> {
    if |records| <= LIMIT then records else records[..LIMIT]
  }

  /** There is only one list of the first twenty when ids are distinct. */
  lemma TopIsUnique(a: seq<Record>, b: seq<Record>, all: seq<Record>)
    requires IsTop(a, all) && IsTop(b, all) && DistinctIds(all)
    ensures a == b
  {
    var x :| Descending(x) && SameRecords(x, all) && a == FirstOf(x);
    var y :| Descending(y) && SameRecords(y, all) && b == FirstOf(y);
    SameRecordsMembers(x, all);
    SameRecordsMembers(y, all);
    DistinctStays(x, all);
    DistinctStays(y, all);
    DescendingIsUnique(x, y);
  }

  lemma DistinctStays(x: seq<Record>, all: seq<Record>)
    requires SameRecords(x, all) && DistinctIds(all)
    ensures DistinctIds(x)
  {
    SameRecordsMembers(x, all);
    forall i, j | 0 <= i < j < |x| ensures x[i].id != x[j].id {
      if x[i].id == x[j].id {
        assert x[i] in all && x[j] in all;
        IdIdentifies(all, x[i], x[j]);
        TwiceInSeq(x, i, j);
        IdsOnce(all, x[i]);
        assert false;
      }
    }
  }

  lemma {:induction false} IdsOnce(s: seq<Record>, r: Record)
    requires DistinctIds(s)
    ensures multiset(s)[r] <= 1
  {
    if s != [] {
      var n := |s| - 1;
      assert s == s[..n] + [s[n]];
      IdsOnce(s[..n], r);
      if s[n] == r {
        assert forall i | 0 <= i < n :: s[..n][i].id != s[n].id;
        assert multiset(s[..n])[r] == 0;
      }
    }
  }

  lemma CacheStaysTrue(c: Cache, c': Cache, listing: seq<Observation>)
    requires CacheTrue(c, listing) && (forall p | p in c'.files :: p in c.files && c'.files[p] == c.files[p])
    ensures CacheTrue(c', listing)
  {
  }

  /** Whatever came from the cache, a scan finds records that were on disk, and if it is not marked
      incomplete it finds all of them. The cache stays true. */
  lemma {:induction false} ScanFindsAll(listing: seq<Observation>, n: nat, budget: nat, cache: Cache)
    requires Capped(cache) && CacheTrue(cache, listing) && PathsDistinct(listing) && n <= |listing|
    ensures var p := Scan(listing[..n], budget, cache);
      && CacheTrue(p.cache, listing)
      && (!p.incomplete ==> p.records == All(listing[..n]) && AllReadable(listing[..n]))
      && (forall r | r in p.records :: r in All(listing[..n]))
      && (forall r | r in p.running :: r.state == RUNNING && r in p.records)
  {
    if n > 0 {
      ScanFindsAll(listing, n - 1, budget, cache);
      var before := Scan(listing[..n-1], budget, cache);
      ScanSnoc(listing, n - 1, budget, cache);
      AllSnoc(listing, n - 1);
      StepFindsRecord(listing, n - 1, before);
      hide Step, CacheTrue, PathsDistinct, Capped, Scan, All, AllReadable;
    }
  }

  lemma ScanSnoc(listing: seq<Observation>, n: nat, budget: nat, cache: Cache)
    requires Capped(cache) && n < |listing|
    ensures var before := Scan(listing[..n], budget, cache);
      && StepAllowed(before, listing[n]) && Scan(listing[..n+1], budget, cache) == Step(before, listing[n])
  {
    assert listing[..n+1][..n] == listing[..n];
    StepKeepsCaps(Scan(listing[..n], budget, cache), listing[n]);
  }

  lemma AllSnoc(listing: seq<Observation>, n: nat)
    requires n < |listing|
    ensures var o := listing[n];
      && All(listing[..n+1]) == All(listing[..n]) + (if o.Json? && o.record.Some? then [o.record.value] else [])
      && (AllReadable(listing[..n+1]) <==> AllReadable(listing[..n]) && (o.Other? || (o.Json? && o.record.Some?)))
  {
    assert listing[..n+1][..n] == listing[..n];
    assert listing[..n+1] == listing[..n] + [listing[n]];
  }

  lemma StepFindsRecord(listing: seq<Observation>, n: nat, p: Progress)
    requires n < |listing| && Capped(p.cache) && CacheTrue(p.cache, listing) && PathsDistinct(listing)
    requires StepAllowed(p, listing[n])
    ensures var o, p' := listing[n], Step(p, listing[n]);
      && CacheTrue(p'.cache, listing)
      && (!p'.incomplete ==> !p.incomplete && (o.Other? || (o.Json? && o.record.Some?)))
      && (p'.records == p.records || (o.Json? && o.record.Some? && p'.records == p.records + [o.record.value]))
      && (!p'.incomplete && o.Json? ==> p'.records == p.records + [o.record.value])
      && (forall r | r in p'.running :: r in p.running || (r.state == RUNNING && r in p'.records))
  {
    var o := listing[n];
    var p' := Step(p, o);
    if o.Json? {
      var hit := Get(p.cache, o.path, o.stamp);
      if hit.None? {
        var removed := Remove(p.cache, o.path);
        CacheStaysTrue(p.cache, removed, listing);
        var (record, remaining) := ReadRecord(o, p.remaining);
        if record.Some? && record.value.state != RUNNING {
          InsertedIsTrue(listing, n, removed, record.value);
        }
      }
    }
  }

  lemma InsertedIsTrue(listing: seq<Observation>, n: nat, c: Cache, r: Record)
    requires n < |listing| && listing[n].Json? && listing[n].record == Some(r) && r.state != RUNNING
    requires CacheTrue(c, listing) && PathsDistinct(listing) && listing[n].path !in c.files
    ensures CacheTrue(Insert(c, listing[n].path, listing[n].stamp, r), listing)
  {
    var o := listing[n];
    var c' := Insert(c, o.path, o.stamp, r);
    forall q | q in listing && q.Json? && q.stamp.Some? && q.path in c'.files && c'.files[q.path].stamp == q.stamp.value
      ensures q.record == Some(c'.files[q.path].summary)
    {
      var k :| 0 <= k < |listing| && listing[k] == q;
      if q.path == o.path { assert k == n; }
    }
  }

  // ---------------------------------------------------------------- whole calls

  /** The cache a call leaves behind: what the scan made of it, without files that are gone. */
  ghost function After(listing: seq<Observation>, budget: nat, cache: Cache): Cache
    requires Capped(cache)
  {
    var p := Scan(Bounded(listing), budget, cache);
    Cache(Retained(p.cache, p.seen), Sum(Retained(p.cache, p.seen)))
  }

  lemma AfterIsCapped(listing: seq<Observation>, budget: nat, cache: Cache)
    requires Capped(cache)
    ensures Capped(After(listing, budget, cache))
  {
    var p := Scan(Bounded(listing), budget, cache);
    RetainKeepsCaps(p.cache.files, p.seen);
  }

  ghost function AfterCalls(listing: seq<Observation>, budget: nat, cache: Cache, k: nat): (c: Cache)
    requires Capped(cache)
    ensures Capped(c)
    decreases k
  {
    if k == 0 then cache
    else
      AfterIsCapped(listing, budget, cache);
      AfterCalls(listing, budget, After(listing, budget, cache), k - 1)
  }

  /** A directory of completed runs that does not change, none too large for the budget. */
  ghost predicate Completed(listing: seq<Observation>, budget: nat) {
    && |listing| <= SCAN_LIMIT && PathsDistinct(listing)
    && forall o | o in listing ::
         o.Json? && o.stamp.Some? && o.record.Some? && o.record.value.state != RUNNING
         && 0 < o.size <= MAX_RECORD_BYTES && o.size <= budget
  }

  predicate IsHit(c: Cache, o: Observation) {
    o.Json? && Get(c, o.path, o.stamp).Some?
  }

  function Misses(listing: seq<Observation>, c: Cache): nat {
    if listing == [] then 0
    else Misses(listing[..|listing|-1], c) + if IsHit(c, listing[|listing|-1]) then 0 else 1
  }

  function MissedBytes(listing: seq<Observation>, c: Cache): nat {
    if listing == [] then 0
    else
      var o := listing[|listing|-1];
      MissedBytes(listing[..|listing|-1], c) + if o.Json? && !IsHit(c, o) then o.size else 0
  }

  /** Entries of files the scan has not come to are as they were. */
  lemma {:induction false} ScanLeavesTheRest(listing: seq<Observation>, n: nat, budget: nat, cache: Cache, k: nat)
    requires Capped(cache) && PathsDistinct(listing) && n <= k < |listing|
    requires forall o | o in listing :: o.Json?
    ensures var p := Scan(listing[..n], budget, cache); IsHit(p.cache, listing[k]) <==> IsHit(cache, listing[k])
    ensures var p := Scan(listing[..n], budget, cache); listing[k].path in p.cache.files <==> listing[k].path in cache.files
  {
    hide *;
    if n == 0 {
      StartKeepsCache(listing, budget, cache);
    } else {
      ScanLeavesTheRest(listing, n - 1, budget, cache, k);
      ScanSnoc(listing, n - 1, budget, cache);
      NextLeavesTheRest(Scan(listing[..n-1], budget, cache), listing, n - 1, k);
    }
  }

  lemma StartKeepsCache(listing: seq<Observation>, budget: nat, cache: Cache)
    requires Capped(cache)
    ensures Scan(listing[..0], budget, cache).cache == cache
  {
  }

  lemma NextLeavesTheRest(p: Progress, listing: seq<Observation>, n: nat, k: nat)
    requires PathsDistinct(listing) && n < k < |listing| && (forall o | o in listing :: o.Json?) && StepAllowed(p, listing[n])
    ensures IsHit(Step(p, listing[n]).cache, listing[k]) <==> IsHit(p.cache, listing[k])
    ensures listing[k].path in Step(p, listing[n]).cache.files <==> listing[k].path in p.cache.files
  {
    assert listing[n] in listing && listing[k] in listing;
    assert listing[n].path != listing[k].path;
    StepLeavesTheRest(p, listing[n], listing[k].path);
    hide Step;
  }

  lemma StepLeavesTheRest(p: Progress, o: Observation, path: Path)
    requires StepAllowed(p, o) && (o.Json? || o.Odd? ==> o.path != path)
    ensures path in Step(p, o).cache.files <==> path in p.cache.files
    ensures path in p.cache.files ==> Step(p, o).cache.files[path] == p.cache.files[path]
  {
  }

  lemma MissedBytesSnoc(listing: seq<Observation>, n: nat, c: Cache)
    requires n < |listing|
    ensures MissedBytes(listing[..n+1], c) == MissedBytes(listing[..n], c) + if listing[n].Json? && !IsHit(c, listing[n]) then listing[n].size else 0
  {
    assert listing[..n+1][..n] == listing[..n];
  }

  /** A call on completed runs is complete exactly if the files it has to read fit into the budget. */
  lemma {:induction false} CompleteIffItFits(listing: seq<Observation>, n: nat, budget: nat, cache: Cache)
    requires Capped(cache) && Completed(listing, budget) && n <= |listing|
    ensures var p := Scan(listing[..n], budget, cache);
      && (!p.incomplete <==> MissedBytes(listing[..n], cache) <= budget)
      && (!p.incomplete ==> p.remaining == budget - MissedBytes(listing[..n], cache))
  {
    if n > 0 {
      CompleteIffItFits(listing, n - 1, budget, cache);
      ScanSnoc(listing, n - 1, budget, cache);
      MissedBytesSnoc(listing, n - 1, cache);
      ScanLeavesTheRest(listing, n - 1, budget, cache, n - 1);
      var before := Scan(listing[..n-1], budget, cache);
      var o := listing[n-1];
      assert o in listing;
      StepReads(before, o);
    }
  }

  lemma StepReads(p: Progress, o: Observation)
    requires StepAllowed(p, o) && o.Json? && o.record.Some? && 0 < o.size <= MAX_RECORD_BYTES
    ensures var p' := Step(p, o);
      && (IsHit(p.cache, o) ==> p'.incomplete == p.incomplete && p'.remaining == p.remaining)
      && (!IsHit(p.cache, o) && o.size <= p.remaining ==> p'.incomplete == p.incomplete && p'.remaining == p.remaining - o.size)
      && (!IsHit(p.cache, o) && o.size > p.remaining ==> p'.incomplete)
      && (p.incomplete ==> p'.incomplete)
  {
  }

  // ---------------------------------------------------------------- repeated calls

  /** Every entry is for a listed file and would be a hit. */
  ghost predicate Clean(c: Cache, listing: seq<Observation>) {
    forall p | p in c.files :: CleanEntry(c, listing, p)
  }

  ghost predicate CleanEntry(c: Cache, listing: seq<Observation>, p: Path)
    requires p in c.files
  {
    exists o | o in listing :: o.Json? && o.path == p && IsHit(c, o) && o.record.Some? && c.files[p].payload == Payload(p, o.record.value)
  }

  function TotalPayload(listing: seq<Observation>): nat {
    if listing == [] then 0
    else
      var o := listing[|listing|-1];
      TotalPayload(listing[..|listing|-1]) + if o.Json? && o.record.Some? then Payload(o.path, o.record.value) else 0
  }

  /** The summaries of the whole directory fit into the cache. */
  predicate Fits(listing: seq<Observation>) {
    |listing| <= MAX_ENTRIES && TotalPayload(listing) <= MAX_PAYLOAD_BYTES
  }

  lemma {:induction false} CleanIsBounded(files: map<Path, Cached>, listing: seq<Observation>)
    requires forall p | p in files :: exists o | o in listing :: o.Json? && o.path == p && o.record.Some? && files[p].payload == Payload(p, o.record.value)
    ensures |files| <= |listing| && Sum(files) <= TotalPayload(listing)
    decreases |listing|
  {
    if listing == [] {
      assert forall p :: p !in files;
      assert files == map[];
    } else {
      var n := |listing| - 1;
      var o := listing[n];
      assert listing == listing[..n] + [o];
      if o.Json? && o.record.Some? && o.path in files && files[o.path].payload == Payload(o.path, o.record.value) {
        SumWithout(files, o.path);
        var rest := files - {o.path};
        assert rest.Keys == files.Keys - {o.path};
        CleanIsBounded(rest, listing[..n]);
      } else {
        CleanIsBounded(files, listing[..n]);
      }
    }
  }

  lemma RoomForOneMore(c: Cache, listing: seq<Observation>, o: Observation)
    requires Capped(c) && Clean(c, listing) && Fits(listing) && o in listing && o.Json? && o.record.Some? && o.path !in c.files
    ensures HasRoom(c, Payload(o.path, o.record.value))
  {
    var more := Cached(0, o.record.value, Payload(o.path, o.record.value));
    var files := c.files[o.path := more];
    forall p | p in files
      ensures exists q | q in listing :: q.Json? && q.path == p && q.record.Some? && files[p].payload == Payload(p, q.record.value)
    {
      if p != o.path { assert CleanEntry(c, listing, p); }
    }
    CleanIsBounded(files, listing);
    SumWith(c.files, o.path, more);
  }

  /** Entries were only added. */
  ghost predicate Grew(c: Cache, c': Cache) {
    forall p | p in c.files :: p in c'.files && c'.files[p] == c.files[p]
  }

  /** A scan keeps every hit, and what it adds are hits. */
  lemma StepKeepsClean(p: Progress, listing: seq<Observation>, o: Observation, budget: nat)
    requires Completed(listing, budget) && o in listing
    requires Clean(p.cache, listing) && StepAllowed(p, o)
    ensures var p' := Step(p, o);
      && Clean(p'.cache, listing)
      && (forall q | q in listing && IsHit(p.cache, q) :: IsHit(p'.cache, q))
      && Grew(p.cache, p'.cache)
  {
    hide *;
    StepInserts(p, listing, o, budget);
    WithOneMore(p.cache, Step(p, o).cache, listing, o);
  }

  /** What a step does to a clean cache: nothing on a hit, without room or when the budget is used up,
      otherwise one more entry. */
  ghost predicate Inserted(c: Cache, c': Cache, o: Observation) {
    && o.Json? && o.record.Some? && o.path !in c.files && IsHit(c', o)
    && c'.files == c.files[o.path := c'.files[o.path]]
    && c'.files[o.path].payload == Payload(o.path, o.record.value)
  }

  lemma StepInserts(p: Progress, listing: seq<Observation>, o: Observation, budget: nat)
    requires Completed(listing, budget) && o in listing && Clean(p.cache, listing) && StepAllowed(p, o)
    ensures var c, c' := p.cache, Step(p, o).cache;
      c'.files == c.files || Inserted(c, c', o)
  {
    if !IsHit(p.cache, o) {
      MissIsAbsent(p.cache, listing, o);
      hide Clean;
    }
  }

  /** With room for the whole directory, every file that is read is added. */
  lemma StepAdds(p: Progress, listing: seq<Observation>, o: Observation, budget: nat)
    requires Completed(listing, budget) && Fits(listing) && o in listing
    requires Capped(p.cache) && Clean(p.cache, listing) && StepAllowed(p, o) && o.size <= p.remaining
    ensures IsHit(Step(p, o).cache, o)
  {
    if !IsHit(p.cache, o) {
      MissIsAbsent(p.cache, listing, o);
      RoomForOneMore(p.cache, listing, o);
      hide Clean, Fits, HasRoom;
    }
  }

  lemma WithOneMore(c: Cache, c': Cache, listing: seq<Observation>, o: Observation)
    requires Clean(c, listing) && o in listing && (c'.files == c.files || Inserted(c, c', o))
    ensures Clean(c', listing) && (forall q | q in listing && IsHit(c, q) :: IsHit(c', q))
    ensures Grew(c, c')
  {
    forall q | q in c'.files ensures CleanEntry(c', listing, q) {
      if q in c.files { assert CleanEntry(c, listing, q); }
    }
  }

  /** In a clean cache a file without a hit has no entry at all. */
  lemma MissIsAbsent(c: Cache, listing: seq<Observation>, o: Observation)
    requires Clean(c, listing) && PathsDistinct(listing) && o in listing && o.Json? && !IsHit(c, o)
    ensures o.path !in c.files
  {
    forall q | q in listing && q.Json? && q.path == o.path ensures q == o {
      SamePathSameEntry(listing, o, q);
    }
  }

  lemma SamePathSameEntry(listing: seq<Observation>, o: Observation, q: Observation)
    requires PathsDistinct(listing) && o in listing && q in listing && o.Json? && q.Json? && o.path == q.path
    ensures o == q
  {
    var i :| 0 <= i < |listing| && listing[i] == o;
    var k :| 0 <= k < |listing| && listing[k] == q;
    assert i == k;
  }

  ghost predicate ScannedClean(listing: seq<Observation>, n: nat, cache: Cache, p: Progress)
    requires n <= |listing|
  {
    && Clean(p.cache, listing) && Grew(cache, p.cache)
    && (forall q | q in listing && IsHit(cache, q) :: IsHit(p.cache, q))
    && (forall i | 0 <= i < n && listing[i].Json? :: listing[i].path in p.seen)
  }

  lemma {:induction false} ScanKeepsClean(listing: seq<Observation>, n: nat, budget: nat, cache: Cache)
    requires Completed(listing, budget) && Capped(cache) && Clean(cache, listing) && n <= |listing|
    ensures ScannedClean(listing, n, cache, Scan(listing[..n], budget, cache))
  {
    hide *;
    if n == 0 {
      StartIsClean(listing, budget, cache);
    } else {
      ScanKeepsClean(listing, n - 1, budget, cache);
      ScanSnoc(listing, n - 1, budget, cache);
      NextIsClean(listing, n - 1, budget, cache, Scan(listing[..n-1], budget, cache));
    }
  }

  lemma StartIsClean(listing: seq<Observation>, budget: nat, cache: Cache)
    requires Capped(cache) && Clean(cache, listing)
    ensures ScannedClean(listing, 0, cache, Scan(listing[..0], budget, cache))
  {
    assert Scan(listing[..0], budget, cache).cache == cache;
  }

  lemma NextIsClean(listing: seq<Observation>, n: nat, budget: nat, cache: Cache, p: Progress)
    requires Completed(listing, budget) && n < |listing|
    requires ScannedClean(listing, n, cache, p) && StepAllowed(p, listing[n])
    ensures ScannedClean(listing, n + 1, cache, Step(p, listing[n]))
  {
    assert listing[n] in listing;
    StepKeepsClean(p, listing, listing[n], budget);
    StepSees(p, listing[n]);
    hide Step, Clean, Completed, IsHit, StepAllowed;
  }

  lemma StepSees(p: Progress, o: Observation)
    requires StepAllowed(p, o)
    ensures p.seen <= Step(p, o).seen && (o.Json? ==> o.path in Step(p, o).seen)
  {
  }

  /** Once found in the cache, an entry is found there for the rest of the scan. */
  lemma {:induction false} HitsStay(listing: seq<Observation>, n: nat, m: nat, budget: nat, cache: Cache, q: Observation)
    requires Completed(listing, budget) && Capped(cache) && Clean(cache, listing) && n <= m <= |listing|
    requires q in listing && IsHit(Scan(listing[..n], budget, cache).cache, q)
    ensures IsHit(Scan(listing[..m], budget, cache).cache, q)
    decreases m
  {
    hide *;
    if n < m {
      HitsStay(listing, n, m - 1, budget, cache, q);
      ScanKeepsClean(listing, m - 1, budget, cache);
      ScanSnoc(listing, m - 1, budget, cache);
      HitStays(listing, m - 1, cache, Scan(listing[..m-1], budget, cache), budget, q);
    }
  }

  lemma HitStays(listing: seq<Observation>, n: nat, cache: Cache, p: Progress, budget: nat, q: Observation)
    requires Completed(listing, budget) && n < |listing| && ScannedClean(listing, n, cache, p)
    requires StepAllowed(p, listing[n]) && q in listing && IsHit(p.cache, q)
    ensures IsHit(Step(p, listing[n]).cache, q)
  {
    assert listing[n] in listing;
    StepKeepsClean(p, listing, listing[n], budget);
    hide Step, Completed, IsHit, StepAllowed, Clean;
  }

  lemma {:induction false} NoMissesBefore(listing: seq<Observation>, cache: Cache) returns (i: nat)
    requires Misses(listing, cache) > 0
    ensures i < |listing| && !IsHit(cache, listing[i]) && MissedBytes(listing[..i], cache) == 0
  {
    var n := |listing| - 1;
    if Misses(listing[..n], cache) > 0 {
      i := NoMissesBefore(listing[..n], cache);
      assert listing[..n][..i] == listing[..i];
    } else {
      i := n;
      NoMissedBytes(listing[..n], cache);
    }
  }

  lemma {:induction false} NoMissedBytes(listing: seq<Observation>, cache: Cache)
    requires Misses(listing, cache) == 0
    ensures MissedBytes(listing, cache) == 0
  {
    if listing != [] { NoMissedBytes(listing[..|listing|-1], cache); }
  }

  lemma {:induction false} FewerMisses(listing: seq<Observation>, c: Cache, c': Cache)
    requires forall q | q in listing && IsHit(c, q) :: IsHit(c', q)
    ensures Misses(listing, c') <= Misses(listing, c)
    ensures (exists q | q in listing :: !IsHit(c, q) && IsHit(c', q)) ==> Misses(listing, c') < Misses(listing, c)
  {
    if listing != [] {
      var n := |listing| - 1;
      assert listing == listing[..n] + [listing[n]];
      FewerMisses(listing[..n], c, c');
    }
  }

  /** A call on a directory the cache has room for finishes, or leaves fewer files to read. */
  lemma EachCallGetsOn(listing: seq<Observation>, budget: nat, cache: Cache)
    requires Completed(listing, budget) && Fits(listing) && Capped(cache) && Clean(cache, listing)
    ensures Clean(After(listing, budget, cache), listing)
    ensures Misses(listing, cache) > 0 ==> Misses(listing, After(listing, budget, cache)) < Misses(listing, cache)
  {
    AfterKeepsHits(listing, budget, cache);
    if Misses(listing, cache) > 0 {
      var i := NoMissesBefore(listing, cache);
      FirstMissIsRead(listing, i, budget, cache);
      hide Completed, Fits, Capped, Clean, After, Scan, IsHit, Misses;
      FewerMisses(listing, cache, After(listing, budget, cache));
    }
  }

  lemma AfterKeepsHits(listing: seq<Observation>, budget: nat, cache: Cache)
    requires Completed(listing, budget) && Capped(cache) && Clean(cache, listing)
    ensures Clean(After(listing, budget, cache), listing) && Grew(cache, After(listing, budget, cache))
    ensures forall q | q in listing && (IsHit(cache, q) || IsHit(Scan(listing, budget, cache).cache, q)) :: IsHit(After(listing, budget, cache), q)
  {
    assert listing[..|listing|] == listing && Bounded(listing) == listing;
    var p := Scan(listing, budget, cache);
    var after := After(listing, budget, cache);
    assert after.files == KeptOf(p.cache.files, p.seen);
    hide *;
    ScanKeepsClean(listing, |listing|, budget, cache);
    RetainedHits(listing, cache, p, after);
  }

  lemma RetainedHits(listing: seq<Observation>, cache: Cache, p: Progress, after: Cache)
    requires ScannedClean(listing, |listing|, cache, p) && after.files == KeptOf(p.cache.files, p.seen)
    ensures Clean(after, listing) && Grew(cache, after)
    ensures forall q | q in listing && (IsHit(cache, q) || IsHit(p.cache, q)) :: IsHit(after, q)
  {
    forall q | q in p.cache.files ensures q in p.seen {
      assert CleanEntry(p.cache, listing, q);
      var o :| o in listing && o.Json? && o.path == q;
      var i :| 0 <= i < |listing| && listing[i] == o;
    }
    forall q | q in listing && IsHit(p.cache, q) ensures IsHit(after, q) {
      var i :| 0 <= i < |listing| && listing[i] == q;
      assert q.path in p.seen;
    }
    forall q | q in after.files ensures CleanEntry(after, listing, q) { assert CleanEntry(p.cache, listing, q); }
  }

  lemma ScannedCleanIsClean(listing: seq<Observation>, n: nat, cache: Cache, p: Progress)
    requires n <= |listing| && ScannedClean(listing, n, cache, p)
    ensures Clean(p.cache, listing)
  {
  }

  lemma EnoughLeft(listing: seq<Observation>, i: nat, budget: nat, cache: Cache)
    requires Completed(listing, budget) && Capped(cache) && i < |listing| && MissedBytes(listing[..i], cache) == 0
    ensures listing[i].Json? && listing[i].size <= Scan(listing[..i], budget, cache).remaining
  {
    CompleteIffItFits(listing, i, budget, cache);
    assert listing[i] in listing;
  }

  lemma FirstMissIsRead(listing: seq<Observation>, i: nat, budget: nat, cache: Cache)
    requires Completed(listing, budget) && Fits(listing) && Capped(cache) && Clean(cache, listing)
    requires i < |listing| && !IsHit(cache, listing[i]) && MissedBytes(listing[..i], cache) == 0
    ensures IsHit(Scan(listing, budget, cache).cache, listing[i])
  {
    hide *;
    EnoughLeft(listing, i, budget, cache);
    ScanKeepsClean(listing, i, budget, cache);
    ScannedCleanIsClean(listing, i, cache, Scan(listing[..i], budget, cache));
    ScanSnoc(listing, i, budget, cache);
    assert listing[i] in listing;
    StepAdds(Scan(listing[..i], budget, cache), listing, listing[i], budget);
    HitsStay(listing, i + 1, |listing|, budget, cache, listing[i]);
    assert listing[..|listing|] == listing;
  }

  lemma {:induction false} OneMissFits(listing: seq<Observation>, budget: nat, c: Cache)
    requires forall o | o in listing :: o.Json? && o.size <= budget
    requires Misses(listing, c) <= 1
    ensures MissedBytes(listing, c) <= budget
  {
    if listing != [] {
      var n := |listing| - 1;
      assert listing[n] in listing && listing == listing[..n] + [listing[n]];
      if IsHit(c, listing[n]) {
        OneMissFits(listing[..n], budget, c);
      } else {
        NoMissedBytes(listing[..n], c);
      }
    }
  }

  lemma LastMissFits(listing: seq<Observation>, budget: nat, cache: Cache)
    requires Completed(listing, budget) && Capped(cache) && Misses(listing, cache) <= 1
    ensures !Scan(listing, budget, cache).incomplete
  {
    assert listing[..|listing|] == listing;
    OneMissFits(listing, budget, cache);
    CompleteIffItFits(listing, |listing|, budget, cache);
  }

  /** If the summaries of the whole directory fit into the cache, as many calls as there are files suffice:
      one of them reads everything that is still missing and is complete. */
  lemma {:induction false} AsManyCallsAsFiles(listing: seq<Observation>, budget: nat, cache: Cache) returns (k: nat)
    requires Completed(listing, budget) && Fits(listing) && Capped(cache) && Clean(cache, listing)
    ensures k == 0 || k < Misses(listing, cache)
    ensures !Scan(listing, budget, AfterCalls(listing, budget, cache, k)).incomplete
    decreases Misses(listing, cache)
  {
    hide Completed, Fits, Capped, Clean, Scan, After, Misses;
    if Misses(listing, cache) <= 1 {
      k := 0;
      LastMissFits(listing, budget, cache);
    } else {
      AfterIsCapped(listing, budget, cache);
      EachCallGetsOn(listing, budget, cache);
      k := AsManyCallsAsFiles(listing, budget, After(listing, budget, cache));
      k := k + 1;
    }
  }

  /** Without that room a call that changes the cache still leaves fewer files to read. */
  lemma ChangeIsProgress(listing: seq<Observation>, budget: nat, cache: Cache)
    requires Completed(listing, budget) && Capped(cache) && Clean(cache, listing)
    ensures Capped(After(listing, budget, cache)) && Clean(After(listing, budget, cache), listing)
    ensures MissedBytes(listing, After(listing, budget, cache)) <= MissedBytes(listing, cache)
    ensures After(listing, budget, cache) != cache ==> Misses(listing, After(listing, budget, cache)) < Misses(listing, cache)
  {
    hide *;
    var after := After(listing, budget, cache);
    AfterIsCapped(listing, budget, cache);
    AfterKeepsHits(listing, budget, cache);
    FewerMissedBytes(listing, cache, after);
    if after != cache { NewEntryIsNewHit(listing, cache, after); }
  }

  lemma {:induction false} FewerMissedBytes(listing: seq<Observation>, c: Cache, c': Cache)
    requires forall q | q in listing && IsHit(c, q) :: IsHit(c', q)
    ensures MissedBytes(listing, c') <= MissedBytes(listing, c)
  {
    if listing != [] {
      var n := |listing| - 1;
      assert listing == listing[..n] + [listing[n]];
      FewerMissedBytes(listing[..n], c, c');
    }
  }

  lemma SameEntries(c: Cache, c': Cache)
    requires Capped(c) && Capped(c') && Grew(c, c') && c'.files.Keys <= c.files.Keys
    ensures c == c'
  {
    assert c'.files == c.files;
  }

  lemma NewEntryIsNewHit(listing: seq<Observation>, c: Cache, c': Cache)
    requires Capped(c) && Capped(c') && Clean(c', listing) && Grew(c, c') && c != c'
    requires forall q | q in listing && IsHit(c, q) :: IsHit(c', q)
    ensures Misses(listing, c') < Misses(listing, c)
  {
    if c'.files.Keys <= c.files.Keys {
      SameEntries(c, c');
      assert false;
    }
    var p :| p in c'.files.Keys && p !in c.files.Keys;
    assert CleanEntry(c', listing, p);
    hide Capped, Clean, Sum;
    FewerMisses(listing, c, c');
  }

  /** Whether calls on a directory that does not change ever become complete is decided by the cache they
      arrive at, which further calls leave as it is. If what it does not hold fits into the budget, one of
      the first calls, no more than there were files to read, is complete; if not, none is, ever. */
  lemma CompleteSoonOrNever(listing: seq<Observation>, budget: nat, cache: Cache)
    requires Completed(listing, budget) && Capped(cache) && Clean(cache, listing)
    ensures var last := AfterCalls(listing, budget, cache, Misses(listing, cache));
      && After(listing, budget, last) == last
      && (MissedBytes(listing, last) <= budget ==>
            exists k | 0 <= k && (k == 0 || k < Misses(listing, cache)) :: CompleteAt(listing, budget, cache, k))
      && (MissedBytes(listing, last) > budget ==> forall k: nat :: !CompleteAt(listing, budget, cache, k))
  {
    hide *;
    var n := Misses(listing, cache);
    var last := AfterCalls(listing, budget, cache, n);
    Settles(listing, budget, cache, n);
    if MissedBytes(listing, last) <= budget {
      var k := SoonEnough(listing, budget, cache);
    } else {
      forall k: nat ensures !CompleteAt(listing, budget, cache, k) {
        NotBeforeTheEnd(listing, budget, cache, n, k);
      }
    }
  }

  /** Call number `k` is complete. */
  ghost predicate CompleteAt(listing: seq<Observation>, budget: nat, cache: Cache, k: nat)
    requires Capped(cache)
  {
    !Scan(listing, budget, AfterCalls(listing, budget, cache, k)).incomplete
  }

  lemma CompleteAtFirst(listing: seq<Observation>, budget: nat, cache: Cache)
    requires Capped(cache) && Completed(listing, budget)
    ensures CompleteAt(listing, budget, cache, 0) <==> MissedBytes(listing, cache) <= budget
    ensures Misses(listing, cache) <= 1 ==> CompleteAt(listing, budget, cache, 0)
  {
    assert listing[..|listing|] == listing;
    CompleteIffItFits(listing, |listing|, budget, cache);
    if Misses(listing, cache) <= 1 { OneMissFits(listing, budget, cache); }
  }

  lemma NextCall(listing: seq<Observation>, budget: nat, cache: Cache, k: nat)
    requires Capped(cache) && k > 0
    ensures Capped(After(listing, budget, cache))
    ensures AfterCalls(listing, budget, cache, k) == AfterCalls(listing, budget, After(listing, budget, cache), k - 1)
    ensures CompleteAt(listing, budget, cache, k) <==> CompleteAt(listing, budget, After(listing, budget, cache), k - 1)
  {
    AfterIsCapped(listing, budget, cache);
  }

  /** After as many calls as files were missing, calls change nothing any more. */
  lemma {:induction false} Settles(listing: seq<Observation>, budget: nat, cache: Cache, n: nat)
    requires Completed(listing, budget) && Capped(cache) && Clean(cache, listing) && Misses(listing, cache) <= n
    ensures var last := AfterCalls(listing, budget, cache, n); After(listing, budget, last) == last
    decreases n
  {
    hide *;
    ChangeIsProgress(listing, budget, cache);
    if After(listing, budget, cache) == cache {
      StaysForever(listing, budget, cache, n);
    } else if n > 0 {
      NextCall(listing, budget, cache, n);
      Settles(listing, budget, After(listing, budget, cache), n - 1);
    }
  }

  lemma {:induction false} StaysForever(listing: seq<Observation>, budget: nat, cache: Cache, n: nat)
    requires Capped(cache) && After(listing, budget, cache) == cache
    ensures AfterCalls(listing, budget, cache, n) == cache
  {
    hide *;
    if n > 0 {
      NextCall(listing, budget, cache, n);
      StaysForever(listing, budget, cache, n - 1);
    } else {
      NoCallsYet(listing, budget, cache);
    }
  }

  lemma {:induction false} SoonEnough(listing: seq<Observation>, budget: nat, cache: Cache) returns (k: nat)
    requires Completed(listing, budget) && Capped(cache) && Clean(cache, listing)
    requires MissedBytes(listing, AfterCalls(listing, budget, cache, Misses(listing, cache))) <= budget
    ensures (k == 0 || k < Misses(listing, cache)) && CompleteAt(listing, budget, cache, k)
    decreases Misses(listing, cache)
  {
    hide *;
    k := 0;
    CompleteAtFirst(listing, budget, cache);
    ChangeIsProgress(listing, budget, cache);
    var after := After(listing, budget, cache);
    if after == cache {
      StaysForever(listing, budget, cache, Misses(listing, cache));
    } else if Misses(listing, cache) > 1 {
      NextCall(listing, budget, cache, Misses(listing, cache));
      ArrivesAt(listing, budget, after, Misses(listing, after), Misses(listing, cache) - 1);
      k := SoonEnough(listing, budget, after);
      k := k + 1;
      NextCall(listing, budget, cache, k);
    }
  }

  /** It does not matter how many calls more than enough there are. */
  lemma {:induction false} ArrivesAt(listing: seq<Observation>, budget: nat, cache: Cache, n: nat, m: nat)
    requires Completed(listing, budget) && Capped(cache) && Clean(cache, listing) && Misses(listing, cache) <= n <= m
    ensures AfterCalls(listing, budget, cache, n) == AfterCalls(listing, budget, cache, m)
    decreases n
  {
    hide *;
    ChangeIsProgress(listing, budget, cache);
    if After(listing, budget, cache) == cache {
      StaysForever(listing, budget, cache, n);
      StaysForever(listing, budget, cache, m);
    } else if n > 0 {
      NextCall(listing, budget, cache, n);
      NextCall(listing, budget, cache, m);
      ArrivesAt(listing, budget, After(listing, budget, cache), n - 1, m - 1);
    }
  }

  lemma {:induction false} NotBeforeTheEnd(listing: seq<Observation>, budget: nat, cache: Cache, n: nat, k: nat)
    requires Completed(listing, budget) && Capped(cache) && Clean(cache, listing) && Misses(listing, cache) <= n
    requires MissedBytes(listing, AfterCalls(listing, budget, cache, n)) > budget
    ensures !CompleteAt(listing, budget, cache, k)
    decreases k
  {
    hide *;
    if k == 0 {
      CompleteAtFirst(listing, budget, cache);
      MissedBytesFall(listing, budget, cache, n);
    } else {
      ChangeIsProgress(listing, budget, cache);
      var after := After(listing, budget, cache);
      NextCall(listing, budget, cache, k);
      ArrivesAt(listing, budget, cache, n, n + 1);
      NextCall(listing, budget, cache, n + 1);
      NotBeforeTheEnd(listing, budget, after, n, k - 1);
    }
  }

  lemma {:induction false} MissedBytesFall(listing: seq<Observation>, budget: nat, cache: Cache, n: nat)
    requires Completed(listing, budget) && Capped(cache) && Clean(cache, listing)
    ensures MissedBytes(listing, AfterCalls(listing, budget, cache, n)) <= MissedBytes(listing, cache)
    decreases n
  {
    hide *;
    if n > 0 {
      ChangeIsProgress(listing, budget, cache);
      NextCall(listing, budget, cache, n);
      MissedBytesFall(listing, budget, After(listing, budget, cache), n - 1);
    } else {
      NoCallsYet(listing, budget, cache);
    }
  }

  // ---------------------------------------------------------------- where clean caches come from

  /** The entries of the first `n` files would be hits. */
  ghost predicate CleanUpTo(listing: seq<Observation>, n: nat, c: Cache)
    requires n <= |listing|
  {
    forall i | 0 <= i < n && listing[i].Json? && listing[i].path in c.files :: GoodEntry(c, listing[i])
  }

  predicate GoodEntry(c: Cache, o: Observation)
    requires o.Json? && o.path in c.files
  {
    IsHit(c, o) && o.record.Some? && c.files[o.path].payload == Payload(o.path, o.record.value)
  }

  lemma {:induction false} ScanCleans(listing: seq<Observation>, n: nat, budget: nat, cache: Cache)
    requires Completed(listing, budget) && Capped(cache) && CacheTrue(cache, listing) && n <= |listing|
    ensures var p := Scan(listing[..n], budget, cache);
      CacheTrue(p.cache, listing) && CleanUpTo(listing, n, p.cache) && PathsSeen(listing, n, p.seen)
    decreases n
  {
    hide *;
    if n == 0 {
      NothingScanned(listing, budget, cache);
    } else {
      ScanCleans(listing, n - 1, budget, cache);
      ScanSnoc(listing, n - 1, budget, cache);
      StepCleans(listing, n - 1, budget, Scan(listing[..n-1], budget, cache));
    }
  }

  lemma NothingScanned(listing: seq<Observation>, budget: nat, cache: Cache)
    requires Capped(cache)
    ensures var p := Scan(listing[..0], budget, cache);
      p.cache == cache && CleanUpTo(listing, 0, cache) && PathsSeen(listing, 0, p.seen)
  {
  }

  lemma StepCleans(listing: seq<Observation>, n: nat, budget: nat, p: Progress)
    requires Completed(listing, budget) && n < |listing| && Capped(p.cache) && CacheTrue(p.cache, listing) && StepAllowed(p, listing[n])
    requires CleanUpTo(listing, n, p.cache) && PathsSeen(listing, n, p.seen)
    ensures var p' := Step(p, listing[n]);
      CacheTrue(p'.cache, listing) && CleanUpTo(listing, n + 1, p'.cache) && PathsSeen(listing, n + 1, p'.seen)
  {
    hide *;
    StepFacts(listing, n, budget);
    StepFindsRecord(listing, n, p);
    StepSeesOnly(p, listing[n]);
    SeenOneMore(listing, n, p.seen);
    StepGood(listing, n, p);
    StepGoodBefore(listing, n, budget, p);
    OneMoreClean(listing, n, Step(p, listing[n]).cache);
  }

  lemma StepFacts(listing: seq<Observation>, n: nat, budget: nat)
    requires Completed(listing, budget) && n < |listing|
    ensures PathsDistinct(listing) && Named(listing[n]) && listing[n].Json? && listing[n].record.Some? && listing[n].stamp.Some?
  {
    assert listing[n] in listing;
  }

  lemma StepGood(listing: seq<Observation>, n: nat, p: Progress)
    requires n < |listing| && listing[n].Json? && listing[n].record.Some? && CacheTrue(p.cache, listing) && StepAllowed(p, listing[n])
    ensures var c := Step(p, listing[n]).cache; listing[n].path in c.files ==> GoodEntry(c, listing[n])
  {
    assert listing[n] in listing;
  }

  lemma StepGoodBefore(listing: seq<Observation>, n: nat, budget: nat, p: Progress)
    requires Completed(listing, budget) && n < |listing| && StepAllowed(p, listing[n]) && CleanUpTo(listing, n, p.cache)
    ensures CleanUpTo(listing, n, Step(p, listing[n]).cache)
  {
    var c := Step(p, listing[n]).cache;
    forall i | 0 <= i < n && listing[i].Json? && listing[i].path in c.files ensures GoodEntry(c, listing[i]) {
      StepFacts(listing, n, budget);
      StepLeavesTheRest(p, listing[n], listing[i].path);
      hide Step;
    }
  }

  lemma OneMoreClean(listing: seq<Observation>, n: nat, c: Cache)
    requires n < |listing| && listing[n].Json? && CleanUpTo(listing, n, c)
    requires listing[n].path in c.files ==> GoodEntry(c, listing[n])
    ensures CleanUpTo(listing, n + 1, c)
  {
  }

  /** Whatever a true cache held, one call on such a directory makes it clean. */
  lemma OneCallCleans(listing: seq<Observation>, budget: nat, cache: Cache)
    requires Completed(listing, budget) && Capped(cache) && CacheTrue(cache, listing)
    ensures Capped(After(listing, budget, cache)) && Clean(After(listing, budget, cache), listing)
  {
    assert listing[..|listing|] == listing && Bounded(listing) == listing;
    var p := Scan(listing, budget, cache);
    var after := After(listing, budget, cache);
    assert after.files == KeptOf(p.cache.files, p.seen);
    hide *;
    AfterIsCapped(listing, budget, cache);
    ScanCleans(listing, |listing|, budget, cache);
    KeptIsClean(listing, p, after);
  }

  lemma KeptIsClean(listing: seq<Observation>, p: Progress, after: Cache)
    requires CleanUpTo(listing, |listing|, p.cache) && PathsSeen(listing, |listing|, p.seen)
    requires after.files == KeptOf(p.cache.files, p.seen) && forall o | o in listing :: o.Json?
    ensures Clean(after, listing)
  {
    forall q | q in after.files ensures CleanEntry(after, listing, q) {
      var i :| 0 <= i < |listing| && Named(listing[i]) && listing[i].path == q;
      assert listing[i] in listing;
      assert GoodEntry(p.cache, listing[i]);
    }
  }

  // ---------------------------------------------------------------- a directory that is never complete

  const BUDGET := 8388608

  /** Twenty runs whose records are about as long as a record may be. */
  function LongRun(i: nat): Observation
    requires i < 20
  {
    var id := [('a' as int + i) as char];
    Json(id + ".json", Some(0), MAX_RECORD_BYTES, Some(Record(id, "r", "", "succeeded", seq(1000000, _ => 'x'))))
  }

  function LongRuns(): seq<Observation> {
    seq(20, i requires 0 <= i < 20 => LongRun(i))
  }

  const LONG := 1000023

  lemma LongRunsAre()
    ensures Completed(LongRuns(), BUDGET) && WellNamed(LongRuns()) && |LongRuns()| == 20
    ensures forall o | o in LongRuns() :: o.Json? && o.record.Some? && o.size == MAX_RECORD_BYTES && Payload(o.path, o.record.value) == LONG
  {
    var all := LongRuns();
    forall o | o in all
      ensures o.Json? && o.stamp.Some? && o.record.Some? && o.record.value.state != RUNNING && o.size == MAX_RECORD_BYTES
      ensures Payload(o.path, o.record.value) == LONG && o.path == o.record.value.id + ".json"
    {
      var i :| 0 <= i < 20 && all[i] == o;
    }
    forall i, j | 0 <= i < j < 20 ensures all[i].path != all[j].path {
      assert all[i].path[0] != all[j].path[0];
    }
  }

  lemma {:induction false} SumOfEqual(files: map<Path, Cached>, each: nat)
    requires forall p | p in files :: files[p].payload == each
    ensures Sum(files) == |files| * each
    decreases |files|
  {
    if files != map[] {
      var p :| p in files;
      SumWithout(files, p);
      assert |(files - {p}).Keys| == |files.Keys - {p}|;
      SumOfEqual(files - {p}, each);
      assert |files| * each == (|files| - 1) * each + each;
    }
  }

  /** A cache has room for eight of them. */
  lemma RoomForEight(c: Cache)
    requires Capped(c) && Clean(c, LongRuns())
    ensures |c.files| <= 8
  {
    LongRunsAre();
    forall p | p in c.files ensures c.files[p].payload == LONG { assert CleanEntry(c, LongRuns(), p); }
    SumOfEqual(c.files, LONG);
  }

  /** The files with a hit, by path. */
  function HitPaths(listing: seq<Observation>, c: Cache): set<Path> {
    set o | o in listing && IsHit(c, o) :: o.path
  }

  lemma {:induction false} HitsAreEntries(listing: seq<Observation>, n: nat, c: Cache)
    requires PathsDistinct(listing) && n <= |listing| && forall o | o in listing :: o.Json?
    ensures HitPaths(listing[..n], c) <= c.files.Keys && Misses(listing[..n], c) + |HitPaths(listing[..n], c)| == n
  {
    if n > 0 {
      hide *;
      HitsAreEntries(listing, n - 1, c);
      OneMoreHit(listing, n - 1, c);
    } else {
      assert HitPaths(listing[..0], c) == {};
    }
  }

  lemma OneMoreHit(listing: seq<Observation>, n: nat, c: Cache)
    requires PathsDistinct(listing) && n < |listing| && forall o | o in listing :: o.Json?
    requires HitPaths(listing[..n], c) <= c.files.Keys && Misses(listing[..n], c) + |HitPaths(listing[..n], c)| == n
    ensures HitPaths(listing[..n+1], c) <= c.files.Keys && Misses(listing[..n+1], c) + |HitPaths(listing[..n+1], c)| == n + 1
  {
    hide *;
    assert listing[n] in listing;
    MissesSnoc(listing, n, c);
    HitPathsSnoc(listing[..n], listing[n], c);
    assert listing[..n+1] == listing[..n] + [listing[n]];
    NewPath(listing, n, c);
  }

  lemma MissesSnoc(listing: seq<Observation>, n: nat, c: Cache)
    requires n < |listing|
    ensures Misses(listing[..n+1], c) == Misses(listing[..n], c) + if IsHit(c, listing[n]) then 0 else 1
  {
    assert listing[..n+1][..n] == listing[..n];
  }

  lemma HitPathsSnoc(listing: seq<Observation>, o: Observation, c: Cache)
    requires o.Json?
    ensures HitPaths(listing + [o], c) == HitPaths(listing, c) + if IsHit(c, o) then {o.path} else {}
    ensures IsHit(c, o) ==> o.path in c.files.Keys
  {
  }

  lemma NewPath(listing: seq<Observation>, n: nat, c: Cache)
    requires PathsDistinct(listing) && n < |listing| && forall o | o in listing :: o.Json?
    ensures listing[n].Json? && listing[n].path !in HitPaths(listing[..n], c)
  {
    assert listing[n] in listing;
    forall q | q in listing[..n] && q.Json? ensures q.path != listing[n].path {
      var i :| 0 <= i < n && listing[..n][i] == q;
      assert listing[i] == q;
    }
  }

  lemma {:induction false} EachMissIsOneSize(listing: seq<Observation>, c: Cache, size: nat)
    requires forall o | o in listing :: o.Json? && o.size == size
    ensures MissedBytes(listing, c) == Misses(listing, c) * size
  {
    if listing != [] {
      var n := |listing| - 1;
      assert listing == listing[..n] + [listing[n]];
      EachMissIsOneSize(listing[..n], c, size);
      assert (Misses(listing[..n], c) + 1) * size == Misses(listing[..n], c) * size + size;
    }
  }

  /** With any cache that holds nothing else, twelve of them have to be read, which is more than the budget. */
  lemma TwelveAreLeft(c: Cache)
    requires Capped(c) && Clean(c, LongRuns())
    ensures MissedBytes(LongRuns(), c) > BUDGET
  {
    LongRunsAre();
    RoomForEight(c);
    var all := LongRuns();
    HitsAreEntries(all, 20, c);
    assert all[..20] == all;
    SubsetIsSmaller(HitPaths(all, c), c.files.Keys);
    EachMissIsOneSize(all, c, MAX_RECORD_BYTES);
  }

  lemma SubsetIsSmaller<T>(a: set<T>, b: set<T>)
    requires a <= b
    ensures |a| <= |b|
  {
    assert b == a + (b - a);
  }

  /** So "as many calls as there are files" is false: twenty completed runs, each within the limit of a
      record and the budget, and from an empty cache no call is ever complete. */
  lemma TwentyLongRunsNeverComplete(k: nat)
    ensures Completed(LongRuns(), BUDGET) && WellNamed(LongRuns()) && Capped(Cache(map[], 0))
    ensures !CompleteAt(LongRuns(), BUDGET, Cache(map[], 0), k)
  {
    var empty := Cache(map[], 0);
    LongRunsAre();
    assert Clean(empty, LongRuns());
    var n := Misses(LongRuns(), empty);
    LastIsClean(LongRuns(), BUDGET, empty, n);
    TwelveAreLeft(AfterCalls(LongRuns(), BUDGET, empty, n));
    hide *;
    NotBeforeTheEnd(LongRuns(), BUDGET, empty, n, k);
  }

  lemma {:induction false} LastIsClean(listing: seq<Observation>, budget: nat, cache: Cache, n: nat)
    requires Completed(listing, budget) && Capped(cache) && Clean(cache, listing)
    ensures Clean(AfterCalls(listing, budget, cache, n), listing)
    decreases n
  {
    hide *;
    if n > 0 {
      ChangeIsProgress(listing, budget, cache);
      NextCall(listing, budget, cache, n);
      LastIsClean(listing, budget, After(listing, budget, cache), n - 1);
    } else {
      NoCallsYet(listing, budget, cache);
    }
  }

  /** Without that room it may never happen: a full cache stays as it is, so a call that could not read
      all the rest within the budget never will, however often it is repeated. */
  lemma {:induction false} FullCacheNeverGetsOn(listing: seq<Observation>, budget: nat, cache: Cache, k: nat)
    requires Completed(listing, budget) && Capped(cache) && Clean(cache, listing)
    requires |cache.files| == MAX_ENTRIES && MissedBytes(listing, cache) > budget
    ensures AfterCalls(listing, budget, cache, k) == cache
    ensures Scan(listing, budget, AfterCalls(listing, budget, cache, k)).incomplete
  {
    hide *;
    FullCacheAfter(listing, budget, cache);
    if k > 0 {
      AfterOneMore(listing, budget, cache, k);
      FullCacheNeverGetsOn(listing, budget, cache, k - 1);
    } else {
      NoCallsYet(listing, budget, cache);
    }
  }

  lemma NoCallsYet(listing: seq<Observation>, budget: nat, cache: Cache)
    requires Capped(cache)
    ensures AfterCalls(listing, budget, cache, 0) == cache
  {
  }

  lemma AfterOneMore(listing: seq<Observation>, budget: nat, cache: Cache, k: nat)
    requires Capped(cache) && k > 0 && After(listing, budget, cache) == cache
    ensures AfterCalls(listing, budget, cache, k) == AfterCalls(listing, budget, cache, k - 1)
  {
  }

  lemma FullCacheAfter(listing: seq<Observation>, budget: nat, cache: Cache)
    requires Completed(listing, budget) && Capped(cache) && Clean(cache, listing)
    requires |cache.files| == MAX_ENTRIES && MissedBytes(listing, cache) > budget
    ensures After(listing, budget, cache) == cache && Scan(listing, budget, cache).incomplete
  {
    assert listing[..|listing|] == listing;
    CompleteIffItFits(listing, |listing|, budget, cache);
    FullCacheStays(listing, |listing|, budget, cache);
    var p := Scan(listing, budget, cache);
    forall q | q in cache.files ensures q in p.seen { assert CleanEntry(cache, listing, q); }
    assert Retained(p.cache, p.seen) == cache.files;
  }

  lemma {:induction false} FullCacheStays(listing: seq<Observation>, n: nat, budget: nat, cache: Cache)
    requires Completed(listing, budget) && Capped(cache) && Clean(cache, listing) && |cache.files| == MAX_ENTRIES && n <= |listing|
    ensures var p := Scan(listing[..n], budget, cache);
      p.cache == cache && forall i | 0 <= i < n && listing[i].Json? :: listing[i].path in p.seen
  {
    hide *;
    if n == 0 {
      StartKeepsCache(listing, budget, cache);
    } else {
      FullCacheStays(listing, n - 1, budget, cache);
      ScanSnoc(listing, n - 1, budget, cache);
      FullStep(Scan(listing[..n-1], budget, cache), listing, n - 1, budget);
      StepSees(Scan(listing[..n-1], budget, cache), listing[n-1]);
    }
  }

  lemma FullStep(p: Progress, listing: seq<Observation>, n: nat, budget: nat)
    requires Completed(listing, budget) && Clean(p.cache, listing) && |p.cache.files| == MAX_ENTRIES
    requires n < |listing| && StepAllowed(p, listing[n])
    ensures Step(p, listing[n]).cache == p.cache
  {
    var o := listing[n];
    assert o in listing;
    if !IsHit(p.cache, o) { MissIsAbsent(p.cache, listing, o); }
  }

  // ---------------------------------------------------------------- the call

  datatype Directory = Invalid | Missing | Unlistable | Listed(listing: seq<Observation>)

  datatype Snapshot = Snapshot(ok: bool, records: seq<Record>, incomplete: bool)

  /** A visible record carries the id its file is named after, and every path is listed once. */
  ghost predicate WellNamed(listing: seq<Observation>) {
    && (forall o | o in listing && o.Json? && o.record.Some? :: o.path == o.record.value.id + ".json")
    && (forall i, j | 0 <= i < j < |listing| && Named(listing[i]) && Named(listing[j]) :: listing[i].path != listing[j].path)
  }

  predicate Named(o: Observation) { o.Json? || o.Odd? }

  ghost predicate PathsSeen(listing: seq<Observation>, n: nat, seen: set<Path>)
    requires n <= |listing|
  {
    forall p | p in seen :: exists i | 0 <= i < n :: Named(listing[i]) && listing[i].path == p
  }

  /** The records of a scan carry the ids of files it saw, each once. */
  lemma {:induction false} ScanIdsDistinct(listing: seq<Observation>, n: nat, budget: nat, cache: Cache)
    requires Capped(cache) && CacheTrue(cache, listing) && PathsDistinct(listing) && WellNamed(listing) && n <= |listing|
    ensures IdsDistinct(listing, n, Scan(listing[..n], budget, cache))
  {
    hide *;
    if n == 0 {
      StartHasNoIds(listing, budget, cache);
    } else {
      ScanIdsDistinct(listing, n - 1, budget, cache);
      ScanFindsAll(listing, n - 1, budget, cache);
      ScanSnoc(listing, n - 1, budget, cache);
      NextIdsDistinct(listing, n - 1, Scan(listing[..n-1], budget, cache));
    }
  }

  ghost predicate IdsDistinct(listing: seq<Observation>, n: nat, p: Progress)
    requires n <= |listing|
  {
    DistinctIds(p.records) && (forall r | r in p.records :: r.id + ".json" in p.seen) && PathsSeen(listing, n, p.seen)
  }

  lemma StartHasNoIds(listing: seq<Observation>, budget: nat, cache: Cache)
    requires Capped(cache)
    ensures IdsDistinct(listing, 0, Scan(listing[..0], budget, cache))
  {
  }

  lemma NextIdsDistinct(listing: seq<Observation>, n: nat, p: Progress)
    requires n < |listing| && Capped(p.cache) && CacheTrue(p.cache, listing) && PathsDistinct(listing) && WellNamed(listing)
    requires StepAllowed(p, listing[n]) && IdsDistinct(listing, n, p)
    ensures IdsDistinct(listing, n + 1, Step(p, listing[n]))
  {
    var o := listing[n];
    assert o in listing;
    StepFindsRecord(listing, n, p);
    StepSeesOnly(p, o);
    hide Step, Capped, CacheTrue, PathsDistinct, StepAllowed;
    var p' := Step(p, o);
    SeenOneMore(listing, n, p.seen);
    if p'.records != p.records {
      NewIdIsNew(listing, n, p.seen, p.records, o.record.value);
    }
  }

  lemma SeenOneMore(listing: seq<Observation>, n: nat, seen: set<Path>)
    requires n < |listing| && PathsSeen(listing, n, seen)
    ensures PathsSeen(listing, n + 1, seen + if Named(listing[n]) then {listing[n].path} else {})
  {
    forall q | q in seen ensures exists i | 0 <= i < n + 1 :: Named(listing[i]) && listing[i].path == q {
      var i :| 0 <= i < n && Named(listing[i]) && listing[i].path == q;
    }
  }

  lemma StepSeesOnly(p: Progress, o: Observation)
    requires StepAllowed(p, o)
    ensures Step(p, o).seen == p.seen + (if Named(o) then {o.path} else {})
  {
  }

  lemma NewIdIsNew(listing: seq<Observation>, n: nat, seen: set<Path>, records: seq<Record>, r: Record)
    requires WellNamed(listing) && n < |listing| && PathsSeen(listing, n, seen)
    requires listing[n].Json? && listing[n].record == Some(r)
    requires DistinctIds(records) && forall q | q in records :: q.id + ".json" in seen
    ensures DistinctIds(records + [r])
  {
    assert listing[n] in listing;
    assert listing[n].path !in seen;
    forall i | 0 <= i < |records| ensures records[i].id != r.id {
      assert records[i] in records;
    }
  }

  /** What liveness may change: a run that was still going may now show a later record of the same run,
      or that it stopped. Every other answer stays. */
  ghost predicate Projected(final: seq<Record>, top: seq<Record>) {
    && |final| == |top|
    && forall i | 0 <= i < |top| ::
         final[i] == top[i] || (top[i].state == RUNNING && final[i].id == top[i].id && final[i].repository == top[i].repository)
  }

  // ---------------------------------------------------------------- one cache, many listings

  /** What a file of some path and stamp holds, whenever it is listed. */
  type Content = (Path, nat) -> Option<Record>

  ghost predicate Truthful(content: Content, listing: seq<Observation>) {
    forall o | o in listing && o.Json? && o.stamp.Some? :: o.record == content(o.path, o.stamp.value)
  }

  /** Every entry is what a file of its stamp holds, and is of a completed run. */
  ghost predicate Holds(c: Cache, content: Content) {
    forall p | p in c.files :: HoldsEntry(c.files[p], p, content)
  }

  ghost predicate HoldsEntry(e: Cached, p: Path, content: Content) {
    content(p, e.stamp) == Some(e.summary) && e.summary.state != RUNNING && e.payload == Payload(p, e.summary)
  }

  lemma HoldsIsTrue(c: Cache, content: Content, listing: seq<Observation>)
    requires Holds(c, content) && Truthful(content, listing)
    ensures CacheTrue(c, listing)
  {
  }

  lemma {:induction false} ScanHolds(listing: seq<Observation>, n: nat, budget: nat, cache: Cache, content: Content)
    requires Capped(cache) && Holds(cache, content) && Truthful(content, listing) && n <= |listing|
    ensures Holds(Scan(listing[..n], budget, cache).cache, content)
  {
    hide *;
    if n == 0 {
      StartKeepsCache(listing, budget, cache);
    } else {
      ScanHolds(listing, n - 1, budget, cache, content);
      ScanSnoc(listing, n - 1, budget, cache);
      StepHolds(Scan(listing[..n-1], budget, cache), listing, listing[n-1], content);
    }
  }

  lemma StepHolds(p: Progress, listing: seq<Observation>, o: Observation, content: Content)
    requires Holds(p.cache, content) && Truthful(content, listing) && o in listing && StepAllowed(p, o)
    ensures Holds(Step(p, o).cache, content)
  {
    var c := Step(p, o).cache;
    forall q | q in c.files ensures HoldsEntry(c.files[q], q, content) {
      StepEntry(p, o, q);
      if q !in p.cache.files || c.files[q] != p.cache.files[q] {
        assert o.record == content(o.path, o.stamp.value);
      }
    }
  }

  /** An entry after a step was there before, or is what was just read. */
  lemma StepEntry(p: Progress, o: Observation, q: Path)
    requires StepAllowed(p, o) && q in Step(p, o).cache.files
    ensures var e := Step(p, o).cache.files[q];
      || (q in p.cache.files && p.cache.files[q] == e)
      || (o.Json? && o.path == q && o.record == Some(e.summary) && o.stamp == Some(e.stamp)
          && e.summary.state != RUNNING && e.payload == Payload(q, e.summary))
  {
    if (o.Json? || o.Odd? ==> o.path != q) {
      StepLeavesTheRest(p, o, q);
      hide Step;
    } else if o.Json? {
      hide Payload, HasRoom, ReadRecord;
      StepMakesCache(p, o);
    }
  }

  lemma StepMakesCache(p: Progress, o: Observation)
    requires StepAllowed(p, o) && o.Json?
    ensures var c := Step(p, o).cache;
      || c == p.cache || c == Remove(p.cache, o.path)
      || (o.record.Some? && o.record.value.state != RUNNING && c == Insert(Remove(p.cache, o.path), o.path, o.stamp, o.record.value))
  {
    hide Insert, Payload, HasRoom;
  }

  lemma AfterHolds(listing: seq<Observation>, budget: nat, cache: Cache, content: Content)
    requires Capped(cache) && Holds(cache, content) && Truthful(content, Bounded(listing))
    ensures Holds(After(listing, budget, cache), content)
  {
    assert Bounded(listing)[..|Bounded(listing)|] == Bounded(listing);
    ScanHolds(Bounded(listing), |Bounded(listing)|, budget, cache, content);
  }

  ghost function AfterListings(listings: seq<seq<Observation>>, budget: nat, cache: Cache): (c: Cache)
    requires Capped(cache)
    ensures Capped(c)
  {
    if listings == [] then cache
    else
      var before := AfterListings(listings[..|listings|-1], budget, cache);
      AfterIsCapped(listings[|listings|-1], budget, before);
      After(listings[|listings|-1], budget, before)
  }

  /** Over any history of a directory whose files never change without changing their stamps, a cache that
      began empty is true of the next listing, whatever that is. */
  lemma {:induction false} EveryCacheIsTrue(listings: seq<seq<Observation>>, budget: nat, content: Content, next: seq<Observation>)
    requires (forall l | l in listings :: Truthful(content, l)) && Truthful(content, next)
    ensures Capped(Cache(map[], 0))
    ensures CacheTrue(AfterListings(listings, budget, Cache(map[], 0)), next)
  {
    HistoryHolds(listings, budget, content);
    HoldsIsTrue(AfterListings(listings, budget, Cache(map[], 0)), content, next);
  }

  lemma {:induction false} HistoryHolds(listings: seq<seq<Observation>>, budget: nat, content: Content)
    requires forall l | l in listings :: Truthful(content, l)
    ensures Capped(Cache(map[], 0)) && Holds(AfterListings(listings, budget, Cache(map[], 0)), content)
  {
    if listings != [] {
      var n := |listings| - 1;
      HistoryHolds(listings[..n], budget, content);
      var last := listings[n];
      assert last in listings && Truthful(content, last);
      assert forall o | o in Bounded(last) :: o in last;
      AfterHolds(last, budget, AfterListings(listings[..n], budget, Cache(map[], 0)), content);
    }
  }

  class TaskRunSummaries {
    var cache: Cache
    ghost const content: Content

    constructor (ghost content: Content)
      ensures cache == Cache(map[], 0) && this.content == content && Valid()
    {
      cache := Cache(map[], 0);
      this.content := content;
    }

    ghost predicate Valid()
      reads this
    {
      Capped(cache) && Holds(cache, content)
    }

    /** The newest task runs of a workspace. `top` is the answer before liveness is projected. */
    method Summarize(dir: Directory, budget: nat) returns (s: Snapshot, ghost top: seq<Record>)
      requires Valid()
      requires dir.Listed? ==> PathsDistinct(dir.listing) && WellNamed(dir.listing) && Truthful(content, dir.listing)
      modifies this
      ensures Valid()
      ensures s.ok <==> !s.incomplete
      ensures dir.Invalid? || dir.Unlistable? ==> !s.ok && s.records == [] && cache == (if dir.Invalid? then Cache(map[], 0) else old(cache))
      ensures dir.Missing? ==> s.ok && s.records == [] && cache == Cache(map[], 0)
      ensures dir.Listed? ==>
        && cache == After(dir.listing, budget, old(cache))
        && Projected(s.records, top) && |top| <= LIMIT
        && (s.ok ==> |dir.listing| <= SCAN_LIMIT && AllReadable(dir.listing) && IsTop(top, All(dir.listing)))
        && IsTop(top, Scan(Bounded(dir.listing), budget, old(cache)).records)
        && (forall r | r in top :: r in All(Bounded(dir.listing)))
      ensures dir.Listed? ==> var p := Scan(Bounded(dir.listing), budget, old(cache));
        s.incomplete <==> p.incomplete || |dir.listing| > SCAN_LIMIT || (p.remaining == 0 && exists r | r in top :: r.state == RUNNING)
    {
      if !dir.Listed? {
        top := [];
        if !dir.Unlistable? { cache := Cache(map[], 0); }
        return Snapshot(dir.Missing?, [], !dir.Missing?), top;
      }
      var listing := dir.listing;
      HoldsIsTrue(cache, content, listing);
      assert forall o | o in Bounded(listing) :: o in listing;
      AfterHolds(listing, budget, cache, content);
      var p := ScanEntries(listing, budget);
      hide Scan, Capped, Holds, Truthful, After, CacheTrue, PathsDistinct, WellNamed, Sum, All, AllReadable, Named, IsTop;
      var records := Newest(p.records);
      top := records;
      var incomplete := p.incomplete || (p.remaining == 0 && exists r | r in records :: r.state == RUNNING);
      records := ProjectLiveness(p.running, records, p.records);
      return Snapshot(!incomplete, records, incomplete), top;
    }

    /** The first twenty, newest first. */
    method Newest(records: seq<Record>) returns (top: seq<Record>)
      requires DistinctIds(records)
      ensures IsTop(top, records) && |top| <= LIMIT && DistinctIds(top) && forall r | r in top :: r in records
    {
      var sorted := SortDescending(records);
      top := if |sorted| > LIMIT then sorted[..LIMIT] else sorted;
      assert top == FirstOf(sorted);
      SameRecordsMembers(sorted, records);
      DistinctStays(sorted, records);
      assert forall r | r in top :: r in sorted;
    }

    /** Looks at every entry up to the scan limit and drops what the cache holds of other files. */
    method ScanEntries(listing: seq<Observation>, budget: nat) returns (p: Progress)
      requires Capped(cache) && PathsDistinct(listing) && WellNamed(listing) && CacheTrue(cache, listing)
      modifies this
      ensures Capped(cache) && cache == After(listing, budget, old(cache)) && CacheTrue(cache, listing)
      ensures var q := Scan(Bounded(listing), budget, old(cache));
        && p.records == q.records && p.running == q.running && p.remaining == q.remaining
        && (p.incomplete <==> q.incomplete || |listing| > SCAN_LIMIT)
        && DistinctIds(q.records) && (forall r | r in q.records :: r in All(Bounded(listing)))
        && (forall r | r in q.running :: r.state == RUNNING && r in q.records)
        && (!p.incomplete ==> p.records == All(listing) && AllReadable(listing))
    {
      hide Step, Capped, CacheTrue, PathsDistinct, WellNamed, All, AllReadable, StepAllowed, Retained;
      ghost var start := cache;
      p := Progress([], [], {}, false, budget, cache);
      var i := 0;
      while i < |listing| && i < SCAN_LIMIT
        invariant i <= |listing| && i <= SCAN_LIMIT
        invariant Capped(start) && CacheTrue(start, listing) && p == Scan(listing[..i], budget, start)
      {
        ScanSnoc(listing, i, budget, start);
        p := Step(p, listing[i]);
        i := i + 1;
      }
      assert listing[..i] == Bounded(listing);
      ScanFindsAll(listing, i, budget, start);
      ScanIdsDistinct(listing, i, budget, start);
      AfterIsCapped(listing, budget, start);
      cache := Retain(p.cache, p.seen);
      RetainedIsTrue(p.cache, p.seen, listing, cache);
      if i < |listing| { p := p.(incomplete := true); }
    }

    /** Drops the entries of other files and what they count for. */
    method Retain(c: Cache, seen: set<Path>) returns (r: Cache)
      requires Capped(c)
      ensures r == Cache(Retained(c, seen), Sum(Retained(c, seen)))
    {
      var left := c.files.Keys;
      r := c;
      while left != {}
        invariant left <= c.files.Keys
        invariant r.files == map p | p in c.files && (p in left || p in seen) :: c.files[p]
        invariant r.payloadBytes == Sum(r.files)
        decreases |left|
      {
        var p :| p in left;
        left := left - {p};
        if p !in seen {
          SumWithout(r.files, p);
          r := Cache(r.files - {p}, r.payloadBytes - r.files[p].payload);
        }
      }
      assert r.files == Retained(c, seen);
    }

    /** Reads the running runs that are shown once more, and shows those without a process as stopped. */
    method ProjectLiveness(running: seq<Record>, top: seq<Record>, ghost all: seq<Record>) returns (records: seq<Record>)
      requires DistinctIds(top) && DistinctIds(all) && (forall r | r in top :: r in all)
      requires forall r | r in running :: r.state == RUNNING && r in all
      ensures Projected(records, top)
    {
      records := top;
      for i := 0 to |running|
        invariant Projected(records, top)
      {
        var again: Record := *;
        var k := 0;
        while k < |records| && records[k].id != running[i].id
          invariant k <= |records|
        {
          k := k + 1;
        }
        if k < |records| && again.id == running[i].id && again.repository == running[i].repository {
          assert top[k] in all && running[i] in running;
          IdIdentifies(all, top[k], running[i]);
          records := records[k := again];
        }
      }
    }
  }

  lemma RetainedIsTrue(c: Cache, seen: set<Path>, listing: seq<Observation>, r: Cache)
    requires CacheTrue(c, listing) && r.files == Retained(c, seen)
    ensures CacheTrue(r, listing)
  {
  }
}
