/** Task run records, which of two is newer, and the newest of each repository. */
module TaskRuns {
  import opened Prelude
  import opened TextOrder

  const RUNNING := "running"
  const STOPPED := "stopped"

  datatype Record = Record(id: string, repository: string, startedAt: string, state: string, rest: string)

  /** Later start, then greater id. */
  predicate Newer(a: Record, b: Record) {
    Less(b.startedAt, a.startedAt) || (a.startedAt == b.startedAt && Less(b.id, a.id))
  }

  predicate SameKey(a: Record, b: Record) {
    a.id == b.id && a.startedAt == b.startedAt && a.repository == b.repository
  }

  /** The first character that differs decides, in the starts or, if they are equal, in the ids. */
  lemma NewerIff(a: Record, b: Record)
    ensures Newer(a, b) <==>
      || (exists k: nat :: LessAt(b.startedAt, a.startedAt, k))
      || (a.startedAt == b.startedAt && exists k: nat :: LessAt(b.id, a.id, k))
  {
    LessIff(b.startedAt, a.startedAt);
    LessIff(b.id, a.id);
  }

  lemma NewerTransitive(a: Record, b: Record, c: Record)
    requires Newer(a, b) && Newer(b, c)
    ensures Newer(a, c)
  {
    if Less(b.startedAt, a.startedAt) && Less(c.startedAt, b.startedAt) { LessTransitive(c.startedAt, b.startedAt, a.startedAt); }
    if Less(b.id, a.id) && Less(c.id, b.id) { LessTransitive(c.id, b.id, a.id); }
  }

  lemma NewerIsStrict(a: Record, b: Record)
    ensures !(Newer(a, b) && Newer(b, a)) && !Newer(a, a)
  {
    LessIsStrict(a.startedAt, b.startedAt);
    LessIsStrict(a.id, b.id);
    LessIsStrict(b.startedAt, a.startedAt);
  }

  lemma NewerIsTotal(a: Record, b: Record)
    ensures Newer(a, b) || Newer(b, a) || (a.startedAt == b.startedAt && a.id == b.id)
  {
    LessIsTotal(a.startedAt, b.startedAt);
    LessIsTotal(a.id, b.id);
  }

  /** `b` is at least as new as `a`: the complement of `Newer(a, b)` is transitive too. */
  lemma NotNewerTransitive(a: Record, b: Record, c: Record)
    requires !Newer(a, b) && !Newer(b, c)
    ensures !Newer(a, c)
  {
    NewerIsTotal(b, a);
    NewerIsTotal(c, b);
    if Newer(a, c) {
      NewerIsStrict(a, c);
      if Newer(b, a) { NewerTransitive(b, a, c); }
    }
  }

  // ---------------------------------------------------------------- sorting

  ghost predicate Descending(records: seq<Record>) {
    forall i, j | 0 <= i < j < |records| :: !Newer(records[j], records[i])
  }

  ghost predicate DistinctIds(records: seq<Record>) {
    forall i, j | 0 <= i < j < |records| :: records[i].id != records[j].id
  }

  ghost predicate SameRecords(a: seq<Record>, b: seq<Record>) {
    multiset(a) == multiset(b)
  }

  method Insert(record: Record, sorted: seq<Record>) returns (r: seq<Record>)
    requires Descending(sorted)
    ensures Descending(r) && SameRecords(r, [record] + sorted)
  {
    var i := 0;
    while i < |sorted| && !Newer(record, sorted[i])
      invariant i <= |sorted|
      invariant forall k | 0 <= k < i :: !Newer(record, sorted[k])
    {
      i := i + 1;
    }
    r := sorted[..i] + [record] + sorted[i..];
    assert sorted == sorted[..i] + sorted[i..];
    InsertedDescending(sorted, i, record);
  }

  lemma InsertedDescending(sorted: seq<Record>, i: nat, record: Record)
    requires Descending(sorted) && i <= |sorted|
    requires forall k | 0 <= k < i :: !Newer(record, sorted[k])
    requires i < |sorted| ==> Newer(record, sorted[i])
    ensures Descending(sorted[..i] + [record] + sorted[i..])
  {
    var r := sorted[..i] + [record] + sorted[i..];
    forall j, k | 0 <= j < k < |r| ensures !Newer(r[k], r[j]) {
      if j == i {
        StillNewer(sorted, i, k - 1, record);
      }
    }
  }

  lemma StillNewer(sorted: seq<Record>, i: nat, k: nat, record: Record)
    requires Descending(sorted) && i <= k < |sorted| && Newer(record, sorted[i])
    ensures !Newer(sorted[k], record)
  {
    NewerIsStrict(record, sorted[i]);
    if k > i { NotNewerTransitive(sorted[k], sorted[i], record); }
  }

  method SortDescending(records: seq<Record>) returns (r: seq<Record>)
    ensures Descending(r) && SameRecords(r, records)
  {
    r := [];
    for i := 0 to |records|
      invariant Descending(r) && SameRecords(r, records[..i])
    {
      assert records[..i+1] == records[..i] + [records[i]];
      r := Insert(records[i], r);
    }
    assert records[..|records|] == records;
  }

  lemma SameRecordsMembers(a: seq<Record>, b: seq<Record>)
    requires SameRecords(a, b)
    ensures |a| == |b| && forall r :: r in a <==> r in b
  {
    assert |multiset(a)| == |multiset(b)|;
    forall r ensures r in a <==> r in b {
      assert r in multiset(a) <==> r in multiset(b);
    }
  }

  /** Two descending lists of the same records are the same list when ids are distinct. */
  lemma {:induction false} DescendingIsUnique(a: seq<Record>, b: seq<Record>)
    requires Descending(a) && Descending(b) && DistinctIds(a) && DistinctIds(b)
    requires forall r :: r in a <==> r in b
    ensures a == b
  {
    if a == [] {
      assert forall r :: r !in a;
      NoMembers(b);
    } else {
      assert a[0] in b && b != [] && b[0] in a;
      var i :| 0 <= i < |b| && b[i] == a[0];
      var j :| 0 <= j < |a| && a[j] == b[0];
      NewerIsTotal(a[0], b[0]);
      assert a[0] == b[0];
      assert a[0] !in a[1..] by {
        forall k | 0 <= k < |a[1..]| ensures a[1..][k] != a[0] { assert a[1..][k] == a[k+1]; }
      }
      assert b[0] !in b[1..] by {
        forall k | 0 <= k < |b[1..]| ensures b[1..][k] != b[0] { assert b[1..][k] == b[k+1]; }
      }
      SameRest(a, b);
      assert forall k | 0 <= k < |a| - 1 :: a[1..][k] == a[k+1];
      assert forall k | 0 <= k < |b| - 1 :: b[1..][k] == b[k+1];
      DescendingIsUnique(a[1..], b[1..]);
    }
  }

  lemma HasMember(s: seq<Record>)
    requires s != []
    ensures exists r :: r in s
  {
    assert s[0] in s;
  }

  lemma NoMembers(s: seq<Record>)
    requires forall r :: r !in s
    ensures s == []
  {
    if s != [] { HasMember(s); }
  }

  lemma SameRest(a: seq<Record>, b: seq<Record>)
    requires a != [] && b != [] && a[0] == b[0] && a[0] !in a[1..] && b[0] !in b[1..]
    requires forall r :: r in a <==> r in b
    ensures forall r :: r in a[1..] <==> r in b[1..]
  {
    forall r ensures r in a <==> r == a[0] || r in a[1..] { assert a == [a[0]] + a[1..]; }
    forall r ensures r in b <==> r == b[0] || r in b[1..] { assert b == [b[0]] + b[1..]; }
  }

  // ---------------------------------------------------------------- the newest of each repository

  /** Some record of every repository, none older than any other of the repository, newest first. */
  ghost predicate IsLatest(latest: seq<Record>, records: seq<Record>) {
    && Descending(latest)
    && (forall i, j | 0 <= i < j < |latest| :: latest[i].repository != latest[j].repository)
    && (forall l | l in latest :: l in records)
    && (forall r {:trigger Covered(latest, r)} | r in records :: Covered(latest, r))
  }

  predicate Covered(latest: seq<Record>, r: Record) {
    exists l | l in latest :: l.repository == r.repository && !Newer(r, l)
  }

  /** Keeps the newest record of each repository in a map, then sorts what the map holds. */
  method LatestByRepository(records: seq<Record>) returns (latest: seq<Record>)
    ensures IsLatest(latest, records)
  {
    var newest: map<string, Record> := map[];
    for i := 0 to |records|
      invariant IsNewestMap(newest, records[..i])
    {
      var record := records[i];
      assert records[..i+1] == records[..i] + [record];
      var wins := record.repository !in newest || Newer(record, newest[record.repository]);
      NewestMapStep(newest, records[..i], record);
      if wins {
        newest := newest[record.repository := record];
      }
    }
    assert records[..|records|] == records;
    latest := SortedValues(newest, records);
  }

  ghost predicate IsNewestMap(newest: map<string, Record>, records: seq<Record>) {
    && (forall p | p in newest :: newest[p].repository == p && newest[p] in records)
    && (forall r | r in records :: r.repository in newest && !Newer(r, newest[r.repository]))
  }

  lemma NewestMapStep(newest: map<string, Record>, records: seq<Record>, record: Record)
    requires IsNewestMap(newest, records)
    ensures IsNewestMap(if record.repository !in newest || Newer(record, newest[record.repository])
                        then newest[record.repository := record] else newest, records + [record])
  {
    NewerIsStrict(record, record);
    if record.repository in newest && Newer(record, newest[record.repository]) {
      forall r | r in records && r.repository == record.repository ensures !Newer(r, record) {
        NewerIsStrict(record, newest[record.repository]);
        NotNewerTransitive(r, newest[record.repository], record);
      }
    }
  }

  method SortedValues(newest: map<string, Record>, ghost records: seq<Record>) returns (latest: seq<Record>)
    requires IsNewestMap(newest, records)
    ensures IsLatest(latest, records)
  {
    var keys := newest.Keys;
    var values: seq<Record> := [];
    while keys != {}
      invariant keys <= newest.Keys
      invariant forall v | v in values :: v.repository in newest && newest[v.repository] == v && v.repository !in keys
      invariant forall p | p in newest && p !in keys :: newest[p] in values
      invariant forall i, j | 0 <= i < j < |values| :: values[i].repository != values[j].repository
      decreases |keys|
    {
      var p :| p in keys;
      forall i | 0 <= i < |values| ensures values[i].repository != p { assert values[i] in values; }
      values := values + [newest[p]];
      keys := keys - {p};
    }
    latest := SortDescending(values);
    SameRecordsMembers(latest, values);
    DistinctAfterSorting(values, latest);
    forall r | r in records ensures Covered(latest, r) {
      assert newest[r.repository] in latest;
    }
  }

  lemma DistinctAfterSorting(values: seq<Record>, latest: seq<Record>)
    requires SameRecords(values, latest)
    requires forall i, j | 0 <= i < j < |values| :: values[i].repository != values[j].repository
    ensures forall i, j | 0 <= i < j < |latest| :: latest[i].repository != latest[j].repository
  {
    forall i, j | 0 <= i < j < |latest| ensures latest[i].repository != latest[j].repository {
      if latest[i].repository == latest[j].repository {
        SameRecordsMembers(values, latest);
        assert latest[i] in values && latest[j] in values;
        assert latest[i] == latest[j];
        TwiceInSeq(latest, i, j);
        OnceInSeq(values, latest[i]);
        assert false;
      }
    }
  }

  lemma TwiceInSeq(s: seq<Record>, i: nat, j: nat)
    requires i < j < |s| && s[i] == s[j]
    ensures multiset(s)[s[i]] >= 2
  {
    assert s == s[..j] + [s[j]] + s[j+1..];
    assert s[..j][i] == s[i];
    assert s[i] in multiset(s[..j]);
  }

  lemma {:induction false} OnceInSeq(s: seq<Record>, r: Record)
    requires forall i, j | 0 <= i < j < |s| :: s[i].repository != s[j].repository
    ensures multiset(s)[r] <= 1
  {
    if s != [] {
      var n := |s| - 1;
      assert s == s[..n] + [s[n]];
      OnceInSeq(s[..n], r);
      if s[n] == r {
        assert forall i | 0 <= i < n :: s[..n][i].repository != s[n].repository;
        assert multiset(s[..n])[r] == 0;
      }
    }
  }

  /** The result does not depend on the order in which the records come: any two lists of the same
      records with distinct ids give the same answer. */
  lemma LatestIsUnique(a: seq<Record>, b: seq<Record>, records: seq<Record>, shuffled: seq<Record>)
    requires IsLatest(a, records) && IsLatest(b, shuffled)
    requires DistinctIds(records) && forall r :: r in records <==> r in shuffled
    ensures a == b
  {
    LatestMembers(a, b, records);
    LatestMembers(b, a, records);
    forall i, j | 0 <= i < j < |a| ensures a[i].id != a[j].id { LatestIdsDiffer(a, records, i, j); }
    forall i, j | 0 <= i < j < |b| ensures b[i].id != b[j].id {
      assert forall l | l in b :: l in records;
      LatestIdsDiffer(b, records, i, j);
    }
    DescendingIsUnique(a, b);
  }

  lemma LatestIdsDiffer(a: seq<Record>, records: seq<Record>, i: nat, j: nat)
    requires DistinctIds(records) && (forall l | l in a :: l in records)
    requires i < j < |a| && a[i].repository != a[j].repository
    ensures a[i].id != a[j].id
  {
    assert a[i] in records && a[j] in records;
    var x :| 0 <= x < |records| && records[x] == a[i];
    var y :| 0 <= y < |records| && records[y] == a[j];
    assert x != y;
  }

  lemma LatestMembers(a: seq<Record>, b: seq<Record>, records: seq<Record>)
    requires (forall l | l in a :: l in records) && (forall l | l in b :: l in records)
    requires (forall r {:trigger Covered(b, r)} | r in records :: Covered(b, r))
    requires (forall r {:trigger Covered(a, r)} | r in records :: Covered(a, r))
    requires forall i, j | 0 <= i < j < |a| :: a[i].repository != a[j].repository
    requires DistinctIds(records)
    ensures forall l | l in a :: l in b
  {
    forall l | l in a ensures l in b {
      assert Covered(b, l);
      var m :| m in b && m.repository == l.repository && !Newer(l, m);
      assert Covered(a, m);
      var k :| k in a && k.repository == m.repository && !Newer(m, k);
      RepositoryIdentifies(a, l, k);
      NewerIsTotal(l, m);
      IdIdentifies(records, l, m);
    }
  }

  lemma RepositoryIdentifies(a: seq<Record>, l: Record, k: Record)
    requires forall i, j | 0 <= i < j < |a| :: a[i].repository != a[j].repository
    requires l in a && k in a && l.repository == k.repository
    ensures l == k
  {
  }

  lemma IdIdentifies(records: seq<Record>, l: Record, m: Record)
    requires DistinctIds(records) && l in records && m in records && l.id == m.id
    ensures l == m
  {
  }
}
