/** Reading task runs by their ids, within a budget of bytes.

    A file holds what it holds for the whole call; the liveness of running runs is looked up afterwards.
 */
module TaskRunHistory {
  import opened Prelude
  import opened TaskRuns

  const MAX_SELECTED := 200
  const MAX_ID := 200
  const MAX_RECORD_BYTES := 1048576
  const MAX_HISTORY_BYTES := 8 * MAX_RECORD_BYTES

  /** `record` is None if the bytes are no record, `visible` says that its repository lies in the workspace. */
  datatype DiskFile = Irregular | Regular(size: nat, record: Option<Record>, visible: bool)

  type Files = map<string, DiskFile>

  datatype Error = RecordReadFailed

  // ---------------------------------------------------------------- ids

  predicate IsIdChar(c: char) {
    'a' <= c <= 'z' || 'A' <= c <= 'Z' || '0' <= c <= '9' || c == '_' || c == '-'
  }

  predicate ValidId(id: string, reserved: set<string>) {
    id != [] && |id| <= MAX_ID && id !in reserved && forall i | 0 <= i < |id| :: IsIdChar(id[i])
  }

  const SMALL := "abcdefghijklmnopqrstuvwxyz"
  const LARGE := "ABCDEFGHIJKLMNOPQRSTUVWXYZ"

  predicate InId(c: char) { c in SMALL || c in LARGE || c in "0123456789_-" }

  /** A text that may name a run. */
  ghost predicate IsRunId(id: string, reserved: set<string>) {
    1 <= |id| <= 200 && id !in reserved && forall c | c in id :: InId(c)
  }

  lemma SmallIff(c: char)
    ensures c in SMALL <==> 'a' <= c <= 'z'
  {
    if 'a' <= c <= 'z' { assert SMALL[c as int - 'a' as int] == c; }
  }

  lemma LargeIff(c: char)
    ensures c in LARGE <==> 'A' <= c <= 'Z'
  {
    if 'A' <= c <= 'Z' { assert LARGE[c as int - 'A' as int] == c; }
  }

  lemma IdCharIff(c: char)
    ensures IsIdChar(c) <==> InId(c)
  {
    SmallIff(c);
    LargeIff(c);
    hide SMALL, LARGE;
  }

  lemma ValidIdIff(id: string, reserved: set<string>)
    ensures ValidId(id, reserved) <==> IsRunId(id, reserved)
  {
    hide IsIdChar, InId;
    forall c | c in id ensures IsIdChar(c) <==> InId(c) { IdCharIff(c); }
  }

  lemma ValidIdsIff(ids: seq<string>, reserved: set<string>)
    ensures forall id | id in ids :: ValidId(id, reserved) <==> IsRunId(id, reserved)
  {
    forall id | id in ids ensures ValidId(id, reserved) <==> IsRunId(id, reserved) { ValidIdIff(id, reserved); }
  }

  // ---------------------------------------------------------------- which calls succeed

  predicate Readable(f: DiskFile, id: string) {
    f.Regular? && f.size <= MAX_RECORD_BYTES && f.record.Some? && f.record.value.id == id && f.visible
  }

  /** The bytes of the files that are read, each once. */
  function Bytes(files: Files, ids: seq<string>): nat {
    if ids == [] then 0
    else
      var id := ids[|ids|-1];
      Bytes(files, ids[..|ids|-1]) + if id in files && files[id].Regular? && id !in ids[..|ids|-1] then files[id].size else 0
  }

  function Found(files: Files, ids: seq<string>): seq<Record> {
    if ids == [] then []
    else
      var id := ids[|ids|-1];
      Found(files, ids[..|ids|-1])
      + if id in files && id !in ids[..|ids|-1] && files[id].Regular? && files[id].record.Some? then [files[id].record.value] else []
  }

  ghost predicate AllReadable(files: Files, ids: seq<string>) {
    forall id | id in ids && id in files :: Readable(files[id], id)
  }

  lemma {:induction false} BytesGrow(files: Files, ids: seq<string>, n: nat)
    requires n <= |ids|
    ensures Bytes(files, ids[..n]) <= Bytes(files, ids)
    decreases |ids|
  {
    if n < |ids| {
      assert ids[..|ids|-1][..n] == ids[..n];
      BytesGrow(files, ids[..|ids|-1], n);
    } else {
      assert ids[..n] == ids;
    }
  }

  /** The found records are those of the requested files, each once. */
  lemma {:induction false} FoundIs(files: Files, ids: seq<string>)
    requires AllReadable(files, ids)
    ensures forall r :: r in Found(files, ids) <==> r.id in ids && r.id in files && Readable(files[r.id], r.id) && r == files[r.id].record.value
    ensures DistinctIds(Found(files, ids))
  {
    if ids != [] {
      var n := |ids| - 1;
      assert ids == ids[..n] + [ids[n]];
      assert AllReadable(files, ids[..n]);
      FoundIs(files, ids[..n]);
      var before, found := Found(files, ids[..n]), Found(files, ids);
      if found != before {
        forall i | 0 <= i < |before| ensures before[i].id != ids[n] { assert before[i] in before; }
      }
    }
  }

  // ---------------------------------------------------------------- the call

  /** Reads one file within the budget. What was read is charged even if it is no record. */
  method ReadBounded(files: Files, id: string, remaining: nat) returns (r: Result<Option<Record>, Error>, left: nat)
    ensures r == Ok(None) <==> id !in files
    ensures r.Ok? && r.value.Some? <==>
      id in files && files[id].Regular? && files[id].size <= MAX_RECORD_BYTES && files[id].size <= remaining && files[id].record.Some?
    ensures r.Ok? && r.value.Some? ==> r.value == files[id].record && left == remaining - files[id].size
    ensures left <= remaining && (r == Ok(None) ==> left == remaining)
  {
    if id !in files { return Ok(None), remaining; }
    if files[id].Irregular? { return Err(RecordReadFailed), remaining; }
    var limit := if MAX_RECORD_BYTES < remaining then MAX_RECORD_BYTES else remaining;
    if files[id].size > limit { return Err(RecordReadFailed), remaining; }
    left := remaining - files[id].size;
    if files[id].record.None? { return Err(RecordReadFailed), left; }
    return Ok(files[id].record), left;
  }

  /** Reads every requested file once, in order, as far as the budget goes. */
  method ReadEach(files: Files, ids: seq<string>) returns (r: Result<seq<Record>, Error>)
    ensures r.Ok? <==> AllReadable(files, ids) && Bytes(files, ids) <= MAX_HISTORY_BYTES
    ensures r.Ok? ==> r.value == Found(files, ids)
  {
    var seen: set<string> := {};
    var records: seq<Record> := [];
    var remaining := MAX_HISTORY_BYTES;
    for i := 0 to |ids|
      invariant seen == set id | id in ids[..i]
      invariant records == Found(files, ids[..i]) && AllReadable(files, ids[..i])
      invariant Bytes(files, ids[..i]) <= MAX_HISTORY_BYTES && remaining == MAX_HISTORY_BYTES - Bytes(files, ids[..i])
    {
      var id := ids[i];
      assert ids[..i+1][..i] == ids[..i] && ids[..i+1] == ids[..i] + [id];
      BytesGrow(files, ids, i + 1);
      assert id in ids;
      if id in seen { continue; }
      seen := seen + {id};
      var read, left := ReadBounded(files, id, remaining);
      if read.Err? { return Err(read.error); }
      remaining := left;
      if read.value.None? { continue; }
      var record := read.value.value;
      if record.id != id || !files[id].visible { return Err(RecordReadFailed); }
      records := records + [record];
    }
    assert ids[..|ids|] == ids;
    return Ok(records);
  }

  /** The requested runs, newest first. `found` are the records as the files hold them. */
  method ReadSelected(files: Files, ids: seq<string>, reserved: set<string>)
    returns (r: Result<seq<Record>, Error>, ghost found: seq<Record>)
    ensures r.Ok? <==>
      && |ids| <= MAX_SELECTED && (forall id | id in ids :: IsRunId(id, reserved))
      && AllReadable(files, ids) && Bytes(files, ids) <= MAX_HISTORY_BYTES
    ensures r.Ok? ==> found == Found(files, ids) && DistinctIds(found)
    ensures r.Ok? ==> Descending(r.value) && |r.value| == |found|
    ensures r.Ok? ==> forall x | x in r.value :: ShownFor(x, found)
    ensures r.Ok? ==> forall f | f in found :: IsShown(f, r.value)
    ensures r.Ok? && (forall x | x in found :: x.state != RUNNING) ==> SameRecords(r.value, found)
  {
    found := [];
    ValidIdsIff(ids, reserved);
    hide ValidId, IsRunId, AllReadable, Bytes, Found, IsShown, ShownFor;
    if |ids| > MAX_SELECTED || exists id | id in ids :: !ValidId(id, reserved) { return Err(RecordReadFailed), found; }
    var read := ReadEach(files, ids);
    if read.Err? { return Err(read.error), found; }
    var records := read.value;
    found := records;
    FoundIs(files, ids);
    var shown := ProjectLiveness(records);
    var sorted := SortDescending(shown);
    SameRecordsMembers(sorted, shown);
    AllShown(found, shown, sorted);
    return Ok(sorted), found;
  }

  /** A record is shown for one that was found: as it is, or, if that was running, as a later record of
      the same run or stopped. */
  ghost predicate ShownFor(x: Record, found: seq<Record>) {
    exists f | f in found :: x == f || (f.state == RUNNING && x.id == f.id && x.repository == f.repository)
  }

  ghost predicate IsShown(f: Record, shown: seq<Record>) {
    exists x | x in shown :: x == f || (f.state == RUNNING && x.id == f.id && x.repository == f.repository)
  }

  lemma AllShown(found: seq<Record>, shown: seq<Record>, sorted: seq<Record>)
    requires (forall x :: x in shown <==> x in sorted)
    requires (forall f | f in found :: IsShown(f, shown)) && forall x | x in shown :: ShownFor(x, found)
    ensures (forall f | f in found :: IsShown(f, sorted)) && forall x | x in sorted :: ShownFor(x, found)
  {
    hide ShownFor;
  }

  method ProjectLiveness(records: seq<Record>) returns (shown: seq<Record>)
    ensures |shown| == |records|
    ensures forall i | 0 <= i < |records| :: records[i].state != RUNNING ==> shown[i] == records[i]
    ensures forall x | x in shown :: ShownFor(x, records)
    ensures forall f | f in records :: IsShown(f, shown)
    ensures (forall x | x in records :: x.state != RUNNING) ==> shown == records
  {
    shown := [];
    for i := 0 to |records|
      invariant |shown| == i
      invariant forall k | 0 <= k < i :: records[k].state != RUNNING ==> shown[k] == records[k]
      invariant forall k | 0 <= k < i :: shown[k].id == records[k].id && shown[k].repository == records[k].repository
    {
      var again: Record := *;
      var next := records[i];
      if next.state == RUNNING && again.id == next.id && again.repository == next.repository {
        next := again;
      }
      shown := shown + [next];
    }
    forall x | x in shown ensures ShownFor(x, records) {
      var k :| 0 <= k < |shown| && shown[k] == x;
      assert records[k] in records;
    }
    forall f | f in records ensures IsShown(f, shown) {
      var k :| 0 <= k < |records| && records[k] == f;
      assert shown[k] in shown;
    }
    assert forall k | 0 <= k < |records| :: records[k] in records;
  }
}
