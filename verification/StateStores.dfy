/** Settings and project registries: three writers, two tables, one transaction each.

    A transaction is one step that commits or leaves both tables alone. Any statement of it may fail.
    Whether a text is an acceptable value is not modelled; the checks look at the trimmed text only.
 */
module StateStores {
  import opened Prelude
  import opened Texts
  import opened TextOrder
  import opened Timestamps

  const WORKSPACE_REGISTRY := "workspace-registry"
  const NULL := "null"

  datatype Row = Row(value: string, updatedAt: string)

  type Table = map<string, Row>

  datatype Checks = Checks(keys: set<string>, isValue: string -> bool, isWorkspaceRegistry: string -> bool, isRegistry: string -> bool)

  datatype Error =
    | KeyInvalid | ValueInvalid | UpdatedAtRequired | Conflict | WriteFailed
    | WorkspaceIdRequired | RegistryJsonInvalid | RevisionConflict

  /** What listeners are told after a commit. */
  datatype Event = StateCommitted(keys: set<string>) | RegistriesCommitted(ids: set<string>)

  // ---------------------------------------------------------------- a batch of records

  /** A record with a timestamp at least as new as the stored one replaces it. */
  predicate Wins(rows: Table, key: string, row: Row) {
    key !in rows || !Less(row.updatedAt, rows[key].updatedAt)
  }

  function Apply(rows: Table, batch: Table): Table {
    map k | k in rows.Keys + batch.Keys :: if k in batch && Wins(rows, k, batch[k]) then batch[k] else rows[k]
  }

  /** No key disappeared and no timestamp became older. */
  ghost predicate Advanced(rows: Table, rows': Table) {
    forall k | k in rows :: k in rows' && !Less(rows'[k].updatedAt, rows[k].updatedAt)
  }

  lemma AdvancedTwice(a: Table, b: Table, c: Table)
    requires Advanced(a, b) && Advanced(b, c)
    ensures Advanced(a, c)
  {
    forall k | k in a ensures !Less(c[k].updatedAt, a[k].updatedAt) {
      NotLessTransitive(c[k].updatedAt, b[k].updatedAt, a[k].updatedAt);
    }
  }

  lemma NotLessTransitive(x: string, y: string, z: string)
    requires !Less(x, y) && !Less(y, z)
    ensures !Less(x, z)
  {
    LessIsTotal(x, y);
    LessIsTotal(y, z);
    if Less(x, z) {
      LessIsStrict(x, z);
      if Less(y, x) { LessTransitive(y, x, z); }
    }
  }

  lemma AdvancedSelf(rows: Table)
    ensures Advanced(rows, rows)
  {
    forall k | k in rows ensures !Less(rows[k].updatedAt, rows[k].updatedAt) {
      LessIsStrict(rows[k].updatedAt, rows[k].updatedAt);
    }
  }

  lemma ApplyAdvances(rows: Table, batch: Table)
    ensures Advanced(rows, Apply(rows, batch))
  {
    AdvancedSelf(rows);
  }

  /** Writing the same batch again changes nothing. */
  lemma ReplayChangesNothing(rows: Table, batch: Table)
    ensures Apply(Apply(rows, batch), batch) == Apply(rows, batch)
  {
    var once := Apply(rows, batch);
    forall k | k in batch ensures Apply(once, batch)[k] == once[k] {
      LessIsStrict(batch[k].updatedAt, batch[k].updatedAt);
    }
  }

  /** On every key two batches share, the timestamps differ or the whole records are equal. */
  ghost predicate Compatible(a: Table, b: Table) {
    forall k | k in a && k in b :: a[k].updatedAt != b[k].updatedAt || a[k] == b[k]
  }

  lemma CompatibleCommute(rows: Table, a: Table, b: Table)
    requires Compatible(a, b)
    ensures Apply(Apply(rows, a), b) == Apply(Apply(rows, b), a)
  {
    var x, y := Apply(Apply(rows, a), b), Apply(Apply(rows, b), a);
    assert x.Keys == y.Keys;
    forall k | k in x ensures x[k] == y[k] {
      if k in a && k in b { KeyCommutes(rows, a, b, k); } else { OneKey(rows, a, b, k); }
    }
  }

  lemma OneKey(rows: Table, a: Table, b: Table, k: string)
    requires k in rows.Keys + a.Keys + b.Keys && !(k in a && k in b)
    ensures Apply(Apply(rows, a), b)[k] == Apply(Apply(rows, b), a)[k]
  {
  }

  lemma KeyCommutes(rows: Table, a: Table, b: Table, k: string)
    requires Compatible(a, b) && k in a && k in b
    ensures Apply(Apply(rows, a), b)[k] == Apply(Apply(rows, b), a)[k]
  {
    var s, t := a[k].updatedAt, b[k].updatedAt;
    LessIsTotal(s, t);
    LessIsStrict(s, t);
    LessIsStrict(s, s);
    if k in rows {
      var r := rows[k].updatedAt;
      LessIsTotal(s, r);
      LessIsTotal(t, r);
      LessIsStrict(s, r);
      LessIsStrict(t, r);
      if Less(s, t) && Less(t, r) { LessTransitive(s, t, r); }
      if Less(t, s) && Less(s, r) { LessTransitive(t, s, r); }
    }
  }

  /** Two batches commute on every table exactly if on each shared key their timestamps differ or their
      records are the same: of two different values with one timestamp the one written last stays. */
  lemma CommuteIff(a: Table, b: Table)
    ensures (forall rows :: Apply(Apply(rows, a), b) == Apply(Apply(rows, b), a)) <==> Compatible(a, b)
  {
    forall rows | Compatible(a, b) ensures Apply(Apply(rows, a), b) == Apply(Apply(rows, b), a) {
      CompatibleCommute(rows, a, b);
    }
    if !Compatible(a, b) {
      var k :| k in a && k in b && a[k].updatedAt == b[k].updatedAt && a[k] != b[k];
      LessIsStrict(a[k].updatedAt, a[k].updatedAt);
      var empty: Table := map[];
      assert Apply(Apply(empty, a), b)[k] == b[k];
      assert Apply(Apply(empty, b), a)[k] == a[k];
    }
  }

  function ApplyAll(rows: Table, batches: seq<Table>): Table
    decreases |batches|
  {
    if batches == [] then rows else ApplyAll(Apply(rows, batches[0]), batches[1..])
  }

  ghost predicate PairwiseCompatible(batches: seq<Table>) {
    forall a, b | a in batches && b in batches :: Compatible(a, b)
  }

  lemma {:induction false} MoveToFront(rows: Table, batches: seq<Table>, i: nat)
    requires PairwiseCompatible(batches) && i < |batches|
    ensures ApplyAll(rows, batches) == ApplyAll(Apply(rows, batches[i]), batches[..i] + batches[i+1..])
    decreases |batches|
  {
    hide Apply, Compatible;
    var rest := batches[..i] + batches[i+1..];
    if i == 0 {
      assert rest == batches[1..];
    } else {
      var tail := batches[1..];
      assert batches == [batches[0]] + tail;
      assert tail[i-1] == batches[i];
      MoveToFront(Apply(rows, batches[0]), tail, i - 1);
      assert batches[0] in batches && batches[i] in batches;
      CompatibleCommute(rows, batches[0], batches[i]);
      assert rest[0] == batches[0] && rest[1..] == tail[..i-1] + tail[i..];
    }
  }

  /** Compatible batches give the same table in every order. */
  lemma {:induction false} AnyOrder(rows: Table, xs: seq<Table>, ys: seq<Table>)
    requires PairwiseCompatible(xs) && multiset(xs) == multiset(ys)
    ensures ApplyAll(rows, xs) == ApplyAll(rows, ys)
    decreases |ys|
  {
    hide Apply, Compatible;
    if ys == [] {
      assert |multiset(xs)| == 0;
    } else {
      var i := SameElsewhere(xs, ys);
      var rest := xs[..i] + xs[i+1..];
      MoveToFront(rows, xs, i);
      assert forall b | b in rest :: b in xs;
      AnyOrder(Apply(rows, ys[0]), rest, ys[1..]);
    }
  }

  /** The first of one list, found in another of the same elements; the rests have the same elements. */
  lemma SameElsewhere<T>(xs: seq<T>, ys: seq<T>) returns (i: nat)
    requires multiset(xs) == multiset(ys) && ys != []
    ensures i < |xs| && xs[i] == ys[0] && multiset(xs[..i] + xs[i+1..]) == multiset(ys[1..])
  {
    i := IndexOf(xs, ys, ys[0]);
    WithoutOne(xs, i);
    WithoutFirst(ys);
  }

  lemma IndexOf<T>(xs: seq<T>, ys: seq<T>, y: T) returns (i: nat)
    requires multiset(xs) == multiset(ys) && y in ys
    ensures i < |xs| && xs[i] == y
  {
    assert y in multiset(ys);
    assert y in multiset(xs);
    i :| 0 <= i < |xs| && xs[i] == y;
  }

  lemma WithoutFirst<T>(ys: seq<T>)
    requires ys != []
    ensures multiset(ys[1..]) == multiset(ys) - multiset{ys[0]}
  {
    assert ys == [ys[0]] + ys[1..];
  }

  lemma WithoutOne<T>(xs: seq<T>, i: nat)
    requires i < |xs|
    ensures multiset(xs[..i] + xs[i+1..]) == multiset(xs) - multiset{xs[i]}
  {
    assert xs == xs[..i] + [xs[i]] + xs[i+1..];
  }

  // ---------------------------------------------------------------- comparing and writing

  /** A missing row is written as the JSON text null in two of the three interfaces. */
  function Stored(rows: Table, key: string): Option<string> {
    if key in rows then Some(rows[key].value) else None
  }

  predicate CasAllowed(rows: Table, key: string, expected: Option<string>, row: Row) {
    Stored(rows, key) == expected && Wins(rows, key, row)
  }

  /** The expected text stands for what is stored, spaces around it aside. */
  predicate Expects(rows: Table, key: string, expected: string) {
    if key in rows then Trim(rows[key].value) == Trim(expected) else Trim(expected) == NULL
  }

  /** One step of a run on the settings table: the table after it, for a call that committed. */
  datatype Call =
    | Batch(batch: Table)
    | Compare(key: string, expected: Option<string>, row: Row)
    | Sync(expectedText: string, row: Row)

  /** What a committed call may have done. */
  ghost predicate Commits(rows: Table, call: Call, rows': Table) {
    match call
    case Batch(batch) => rows' == Apply(rows, batch)
    case Compare(key, expected, row) => CasAllowed(rows, key, expected, row) && rows' == rows[key := row]
    case Sync(expected, row) =>
      && Expects(rows, WORKSPACE_REGISTRY, expected) && Wins(rows, WORKSPACE_REGISTRY, row)
      && rows' == rows[WORKSPACE_REGISTRY := row]
  }

  lemma CommitAdvances(rows: Table, call: Call, rows': Table)
    requires Commits(rows, call, rows')
    ensures Advanced(rows, rows')
  {
    match call
    case Batch(batch) => ApplyAdvances(rows, batch);
    case _ => AdvancedSelf(rows);
  }

  ghost predicate IsRun(tables: seq<Table>, calls: seq<Call>) {
    && |tables| == |calls| + 1
    && forall i | 0 <= i < |calls| :: Commits(tables[i], calls[i], tables[i+1])
  }

  /** Over any run of the three writers no key disappears and no stored timestamp decreases. */
  lemma {:induction false} RunAdvances(tables: seq<Table>, calls: seq<Call>, i: nat, j: nat)
    requires IsRun(tables, calls) && i <= j < |tables|
    ensures Advanced(tables[i], tables[j])
    decreases j
  {
    if i == j {
      AdvancedSelf(tables[i]);
    } else {
      RunAdvances(tables, calls, i, j - 1);
      CommitAdvances(tables[j-1], calls[j-1], tables[j]);
      AdvancedTwice(tables[i], tables[j-1], tables[j]);
    }
  }

  /** Some commit between two moments brought a value of a key back. */
  ghost predicate Restored(tables: seq<Table>, key: string, value: Option<string>, from: nat, to: nat) {
    exists m | from <= m < to && m + 1 < |tables| :: RestoredAt(tables, key, value, m)
  }

  ghost predicate RestoredAt(tables: seq<Table>, key: string, value: Option<string>, m: nat)
    requires m + 1 < |tables|
  {
    Stored(tables[m], key) != value && Stored(tables[m+1], key) == value
  }

  lemma {:induction false} ComesBackOnlyByCommit(tables: seq<Table>, key: string, value: Option<string>, i: nat, j: nat)
    requires i <= j < |tables| && Stored(tables[i], key) != value && Stored(tables[j], key) == value
    ensures Restored(tables, key, value, i, j)
    decreases j
  {
    if Stored(tables[j-1], key) == value {
      ComesBackOnlyByCommit(tables, key, value, i, j - 1);
      var m :| i <= m < j - 1 && m + 1 < |tables| && RestoredAt(tables, key, value, m);
    } else {
      assert RestoredAt(tables, key, value, j - 1);
    }
  }

  /** Two writers that looked at the same value: once one of them has changed it, the other succeeds only
      if some commit in between has brought the old value back. */
  lemma OnlyOneComparerWins(tables: seq<Table>, calls: seq<Call>, i: nat, j: nat)
    requires IsRun(tables, calls) && i < j < |calls| && calls[i].Compare? && calls[j].Compare?
    requires calls[i].key == calls[j].key && calls[i].expected == calls[j].expected
    requires Some(calls[i].row.value) != calls[i].expected
    ensures Restored(tables, calls[i].key, calls[i].expected, i + 1, j)
  {
    assert Commits(tables[i], calls[i], tables[i+1]) && Commits(tables[j], calls[j], tables[j+1]);
    ComesBackOnlyByCommit(tables, calls[i].key, calls[i].expected, i + 1, j);
  }

  /** The key a comparing or syncing call writes, and whether it accepts what is stored there. */
  function KeyOf(call: Call): string
    requires !call.Batch?
  {
    if call.Compare? then call.key else WORKSPACE_REGISTRY
  }

  predicate Accepts(call: Call, stored: Option<string>)
    requires !call.Batch?
  {
    if call.Compare? then stored == call.expected
    else if stored.Some? then Trim(stored.value) == Trim(call.expectedText)
    else Trim(call.expectedText) == NULL
  }

  /** Some commit between two moments brought back what the call accepts. */
  ghost predicate AcceptableAgain(tables: seq<Table>, call: Call, from: nat, to: nat)
    requires !call.Batch?
  {
    exists m | from <= m < to && m + 1 < |tables| :: TurnsAcceptable(tables, call, m)
  }

  ghost predicate TurnsAcceptable(tables: seq<Table>, call: Call, m: nat)
    requires !call.Batch? && m + 1 < |tables|
  {
    !Accepts(call, Stored(tables[m], KeyOf(call))) && Accepts(call, Stored(tables[m+1], KeyOf(call)))
  }

  lemma {:induction false} AcceptableOnlyByCommit(tables: seq<Table>, call: Call, i: nat, j: nat)
    requires !call.Batch? && i <= j < |tables|
    requires !Accepts(call, Stored(tables[i], KeyOf(call))) && Accepts(call, Stored(tables[j], KeyOf(call)))
    ensures AcceptableAgain(tables, call, i, j)
    decreases j
  {
    hide Accepts;
    if Accepts(call, Stored(tables[j-1], KeyOf(call))) {
      AcceptableOnlyByCommit(tables, call, i, j - 1);
      var m :| i <= m < j - 1 && m + 1 < |tables| && TurnsAcceptable(tables, call, m);
    } else {
      assert TurnsAcceptable(tables, call, j - 1);
    }
  }

  /** The same of comparing and syncing calls in any mixture: once one of them has stored a value the other
      does not accept, the other succeeds only if some commit in between has brought one back that it does. */
  lemma GuardedCallNeedsRestore(tables: seq<Table>, calls: seq<Call>, i: nat, j: nat)
    requires IsRun(tables, calls) && i < j < |calls| && !calls[i].Batch? && !calls[j].Batch?
    requires KeyOf(calls[i]) == KeyOf(calls[j]) && !Accepts(calls[j], Some(calls[i].row.value))
    ensures AcceptableAgain(tables, calls[j], i + 1, j)
  {
    assert Commits(tables[i], calls[i], tables[i+1]) && Commits(tables[j], calls[j], tables[j+1]);
    AcceptableOnlyByCommit(tables, calls[j], i + 1, j);
  }

  // ---------------------------------------------------------------- checking what is written

  datatype Input = Input(value: string, updatedAt: string)

  datatype Record = Record(key: string, input: Input)

  predicate Acceptable(c: Checks, r: Record) {
    Trim(r.key) in c.keys && c.isValue(Trim(r.input.value)) && IsSortable(Trim(r.input.updatedAt))
  }

  predicate AllAcceptable(c: Checks, records: seq<Record>) {
    forall i | 0 <= i < |records| :: Acceptable(c, records[i])
  }

  /** All values are still valid. */
  predicate AllValid(c: Checks, values: map<string, string>) {
    forall k | k in values :: c.isValue(Trim(values[k]))
  }

  function RowFor(input: Input): Row { Row(Trim(input.value), Trim(input.updatedAt)) }

  function CheckRecord(c: Checks, r: Record): (checked: Result<Row, Error>)
    ensures checked.Ok? <==> Acceptable(c, r)
    ensures checked.Ok? ==> checked.value == RowFor(r.input)
    ensures checked.Err? ==> checked.error in {KeyInvalid, ValueInvalid, UpdatedAtRequired}
  {
    if Trim(r.key) !in c.keys then Err(KeyInvalid)
    else if !c.isValue(Trim(r.input.value)) then Err(ValueInvalid)
    else if !IsSortable(Trim(r.input.updatedAt)) then Err(UpdatedAtRequired)
    else Ok(Row(Trim(r.input.value), Trim(r.input.updatedAt)))
  }

  /** The batch the records make: of two records for one trimmed key the later one counts. */
  ghost predicate IsBatchOf(c: Checks, records: seq<Record>, batch: Table) {
    && (forall i | 0 <= i < |records| :: Acceptable(c, records[i]) && Trim(records[i].key) in batch)
    && (forall k | k in batch :: exists i | 0 <= i < |records| :: IsLastFor(c, records, batch, k, i))
  }

  ghost predicate IsLastFor(c: Checks, records: seq<Record>, batch: Table, k: string, i: nat)
    requires k in batch && i < |records|
  {
    && Trim(records[i].key) == k && batch[k] == RowFor(records[i].input)
    && forall j | i < j < |records| :: Trim(records[j].key) != k
  }

  lemma BatchGrows(c: Checks, records: seq<Record>, batch: Table, r: Record)
    requires IsBatchOf(c, records, batch) && Acceptable(c, r)
    ensures IsBatchOf(c, records + [r], batch[Trim(r.key) := RowFor(r.input)])
  {
    var records' := records + [r];
    var batch' := batch[Trim(r.key) := RowFor(r.input)];
    hide Acceptable, RowFor, Trim;
    forall k | k in batch' ensures exists i | 0 <= i < |records'| :: IsLastFor(c, records', batch', k, i) {
      if k == Trim(r.key) {
        assert IsLastFor(c, records', batch', k, |records|);
      } else {
        var i :| 0 <= i < |records| && IsLastFor(c, records, batch, k, i);
        assert IsLastFor(c, records', batch', k, i);
      }
    }
  }

  lemma NoBatchYet(c: Checks, records: seq<Record>, batch: Table)
    requires records == [] && batch == map[]
    ensures IsBatchOf(c, records, batch)
  {
  }

  lemma AcceptableOneByOne(c: Checks, records: seq<Record>)
    ensures AllAcceptable(c, records) <==> forall i | 0 <= i < |records| :: Acceptable(c, records[i])
  {
  }

  method ValidateRecords(c: Checks, records: seq<Record>) returns (r: Result<Table, Error>)
    ensures r.Ok? <==> AllAcceptable(c, records)
    ensures r.Ok? ==> IsBatchOf(c, records, r.value)
    ensures r.Err? ==> exists i | 0 <= i < |records| :: CheckRecord(c, records[i]) == Err(r.error)
    ensures r.Err? ==> r.error in {KeyInvalid, ValueInvalid, UpdatedAtRequired}
  {
    AcceptableOneByOne(c, records);
    hide *;
    var batch: Table := map[];
    NoBatchYet(c, records[..0], batch);
    for i := 0 to |records|
      invariant IsBatchOf(c, records[..i], batch)
      invariant forall k | 0 <= k < i :: Acceptable(c, records[k])
    {
      var checked := CheckRecord(c, records[i]);
      if checked.Err? { return Err(checked.error); }
      BatchGrows(c, records[..i], batch, records[i]);
      assert records[..i+1] == records[..i] + [records[i]];
      batch := batch[Trim(records[i].key) := checked.value];
    }
    assert records[..|records|] == records;
    return Ok(batch);
  }

  // ---------------------------------------------------------------- project registries

  datatype Registry = Registry(id: string, json: string, updatedAt: string, expected: Option<string>)

  /** One registry of a call, seen by the transaction after the registries before it. */
  function WriteRegistry(c: Checks, table: Table, r: Registry): Result<Table, Error> {
    if Trim(r.id) == "" then Err(WorkspaceIdRequired)
    else if !c.isRegistry(Trim(r.json)) then Err(RegistryJsonInvalid)
    else if Trim(r.updatedAt) == "" then Err(RegistryJsonInvalid)
    else if r.expected.Some? && Trim(r.expected.value) != NULL && !c.isRegistry(Trim(r.expected.value)) then Err(RegistryJsonInvalid)
    else if r.expected.Some? && !Expects(table, Trim(r.id), r.expected.value) then Err(RevisionConflict)
    else Ok(table[Trim(r.id) := Row(Trim(r.json), Trim(r.updatedAt))])
  }

  function WriteRegistries(c: Checks, table: Table, registries: seq<Registry>): Result<Table, Error> {
    if registries == [] then Ok(table)
    else
      var before := WriteRegistries(c, table, registries[..|registries|-1]);
      if before.Err? then before else WriteRegistry(c, before.value, registries[|registries|-1])
  }

  function Ids(registries: seq<Registry>): set<string> {
    set r | r in registries :: Trim(r.id)
  }

  /** A call that went through lost no registry and touched only those it names. */
  lemma {:induction false} RegistriesKept(c: Checks, table: Table, registries: seq<Registry>)
    requires WriteRegistries(c, table, registries).Ok?
    ensures var t := WriteRegistries(c, table, registries).value;
      && t.Keys == table.Keys + Ids(registries)
      && (forall id | id in table && id !in Ids(registries) :: t[id] == table[id])
  {
    hide WriteRegistry, Trim;
    if registries != [] {
      var n := |registries| - 1;
      RegistriesKept(c, table, registries[..n]);
      OneRegistryKept(c, WriteRegistries(c, table, registries[..n]).value, registries[n]);
      IdsSnoc(registries);
    }
  }

  lemma IdsSnoc(registries: seq<Registry>)
    requires registries != []
    ensures Ids(registries) == Ids(registries[..|registries|-1]) + {Trim(registries[|registries|-1].id)}
  {
    var n := |registries| - 1;
    assert registries == registries[..n] + [registries[n]];
  }

  lemma OneRegistryKept(c: Checks, table: Table, r: Registry)
    requires WriteRegistry(c, table, r).Ok?
    ensures var t := WriteRegistry(c, table, r).value;
      t.Keys == table.Keys + {Trim(r.id)} && forall id | id in table && id != Trim(r.id) :: t[id] == table[id]
  {
  }

  lemma {:induction false} FirstFailureStays(c: Checks, table: Table, registries: seq<Registry>, i: nat)
    requires i <= |registries| && WriteRegistries(c, table, registries[..i]).Err?
    ensures WriteRegistries(c, table, registries) == WriteRegistries(c, table, registries[..i])
    decreases |registries|
  {
    hide WriteRegistry;
    if i < |registries| {
      var n := |registries| - 1;
      assert registries[..n][..i] == registries[..i];
      FirstFailureStays(c, table, registries[..n], i);
    } else {
      assert registries[..i] == registries;
    }
  }

  /** After one sync changed a registry, another one that still expects the old text is refused. */
  lemma SecondSyncIsRefused(c: Checks, table: Table, first: Registry, second: Registry)
    requires WriteRegistry(c, table, first).Ok?
    requires Trim(first.id) == Trim(second.id) && second.expected.Some? && second.expected == first.expected
    requires Trim(first.json) != Trim(first.expected.value)
    ensures WriteRegistry(c, WriteRegistry(c, table, first).value, second).Err?
  {
    TrimTwice(first.json);
  }

  /** What an entry must be by itself. */
  predicate EntryOk(c: Checks, r: Registry) {
    && Trim(r.id) != "" && c.isRegistry(Trim(r.json)) && Trim(r.updatedAt) != ""
    && (r.expected.Some? ==> Trim(r.expected.value) == NULL || c.isRegistry(Trim(r.expected.value)))
  }

  /** Of the first `n` entries, `i` is the last that names a registry. */
  ghost predicate LastNaming(registries: seq<Registry>, n: nat, id: string, i: nat) {
    i < n <= |registries| && Trim(registries[i].id) == id && forall j | i < j < n :: Trim(registries[j].id) != id
  }

  /** The text an entry finds: that of the last entry before it that names the same registry, or else the
      one that was stored when the call began. */
  ghost predicate Finds(table: Table, registries: seq<Registry>, q: nat, text: Option<string>)
    requires q < |registries|
  {
    var id := Trim(registries[q].id);
    if id in Ids(registries[..q])
    then exists i: nat :: LastNaming(registries, q, id, i) && text == Some(Trim(registries[i].json))
    else text == Stored(table, id)
  }

  /** An entry that expects a text finds it; nothing found reads as the JSON text null. */
  ghost predicate FindsExpected(table: Table, registries: seq<Registry>, q: nat)
    requires q < |registries|
  {
    registries[q].expected.Some? ==>
      forall text | Finds(table, registries, q, text) ::
        Trim(registries[q].expected.value) == if text.Some? then Trim(text.value) else NULL
  }

  /** The row the last entry that names a registry leaves there. */
  ghost predicate LeftBy(registries: seq<Registry>, n: nat, id: string, row: Row) {
    exists i: nat :: LastNaming(registries, n, id, i) && row == Row(Trim(registries[i].json), Trim(registries[i].updatedAt))
  }

  /** Every row after a call: the last entry that names it, trimmed, or what was there. */
  ghost predicate RowsAre(table: Table, registries: seq<Registry>, n: nat, table': Table)
    requires n <= |registries|
  {
    && table'.Keys == table.Keys + Ids(registries[..n])
    && forall id | id in table' :: if id in Ids(registries[..n]) then LeftBy(registries, n, id, table'[id]) else table'[id] == table[id]
  }

  lemma LeftByNext(registries: seq<Registry>, n: nat, id: string, row: Row)
    requires n < |registries| && id != Trim(registries[n].id) && LeftBy(registries, n, id, row)
    ensures LeftBy(registries, n + 1, id, row)
  {
    hide Trim;
    var i: nat :| LastNaming(registries, n, id, i) && row == Row(Trim(registries[i].json), Trim(registries[i].updatedAt));
    assert LastNaming(registries, n + 1, id, i);
  }

  lemma LeftByLast(c: Checks, before: Table, registries: seq<Registry>, n: nat)
    requires n < |registries| && WriteRegistry(c, before, registries[n]).Ok?
    ensures var id := Trim(registries[n].id);
      id in WriteRegistry(c, before, registries[n]).value
      && LeftBy(registries, n + 1, id, WriteRegistry(c, before, registries[n]).value[id])
  {
    hide Trim;
    assert LastNaming(registries, n + 1, Trim(registries[n].id), n);
  }

  lemma OneMoreRow(c: Checks, table: Table, registries: seq<Registry>, n: nat, before: Table)
    requires n < |registries| && RowsAre(table, registries, n, before) && WriteRegistry(c, before, registries[n]).Ok?
    ensures RowsAre(table, registries, n + 1, WriteRegistry(c, before, registries[n]).value)
  {
    assert registries[..n+1][..n] == registries[..n];
    IdsSnoc(registries[..n+1]);
    OneRegistryKept(c, before, registries[n]);
    LeftByLast(c, before, registries, n);
    hide *;
    RowsGrow(table, registries, n, before, WriteRegistry(c, before, registries[n]).value, Trim(registries[n].id));
  }

  lemma RowsGrow(table: Table, registries: seq<Registry>, n: nat, before: Table, after: Table, last: string)
    requires n < |registries| && RowsAre(table, registries, n, before) && last == Trim(registries[n].id)
    requires Ids(registries[..n+1]) == Ids(registries[..n]) + {last} && after.Keys == before.Keys + {last}
    requires last in after && LeftBy(registries, n + 1, last, after[last])
    requires forall id | id in before && id != last :: after[id] == before[id]
    ensures RowsAre(table, registries, n + 1, after)
  {
    hide Trim, Ids, LeftBy;
    forall id | id in after && id != last
      ensures if id in Ids(registries[..n+1]) then LeftBy(registries, n + 1, id, after[id]) else after[id] == table[id]
    {
      assert id in before;
      if id in Ids(registries[..n]) { LeftByNext(registries, n, id, before[id]); }
    }
  }

  /** What an entry finds is what the transaction sees. */
  lemma FindsIff(table: Table, registries: seq<Registry>, q: nat, before: Table)
    requires q < |registries| && RowsAre(table, registries, q, before)
    ensures forall text | Finds(table, registries, q, text) && text.Some? ::
      Trim(registries[q].id) in before && Trim(text.value) == Trim(before[Trim(registries[q].id)].value)
    ensures Finds(table, registries, q, Stored(before, Trim(registries[q].id)))
    ensures Finds(table, registries, q, None) ==> Trim(registries[q].id) !in before
  {
    var id := Trim(registries[q].id);
    hide Trim, Ids;
    LastIsOne(registries, q, id);
  }

  lemma AcceptedIff(c: Checks, table: Table, registries: seq<Registry>, q: nat, before: Table)
    requires q < |registries| && RowsAre(table, registries, q, before)
    ensures WriteRegistry(c, before, registries[q]).Ok? <==> EntryOk(c, registries[q]) && FindsExpected(table, registries, q)
  {
    FindsIff(table, registries, q, before);
    hide Trim, Finds, RowsAre;
  }

  lemma LastIsOne(registries: seq<Registry>, n: nat, id: string)
    ensures forall i: nat, j: nat | LastNaming(registries, n, id, i) && LastNaming(registries, n, id, j) :: i == j
  {
    hide Trim;
  }

  /** A call goes through exactly if every entry is one and finds what it expects. Then each registry it
      names has the text and timestamp of the last entry that names it, and the others stay. */
  lemma {:induction false} GoesThroughIff(c: Checks, table: Table, registries: seq<Registry>, n: nat)
    requires n <= |registries|
    ensures WriteRegistries(c, table, registries[..n]).Ok? <==>
      forall q | 0 <= q < n :: EntryOk(c, registries[q]) && FindsExpected(table, registries, q)
    ensures WriteRegistries(c, table, registries[..n]).Ok? ==>
      RowsAre(table, registries, n, WriteRegistries(c, table, registries[..n]).value)
  {
    hide WriteRegistry, EntryOk, FindsExpected, RowsAre;
    if n == 0 {
      NoRowYet(table, registries);
    } else {
      assert registries[..n][..n-1] == registries[..n-1];
      GoesThroughIff(c, table, registries, n - 1);
      var before := WriteRegistries(c, table, registries[..n-1]);
      if before.Ok? {
        AcceptedIff(c, table, registries, n - 1, before.value);
        if WriteRegistry(c, before.value, registries[n-1]).Ok? { OneMoreRow(c, table, registries, n - 1, before.value); }
      }
    }
  }

  lemma NoRowYet(table: Table, registries: seq<Registry>)
    ensures RowsAre(table, registries, 0, table)
  {
  }

  /** What a call that went through expected of a registry was there when it began, if no entry of the
      call before wrote the same one. */
  lemma ExpectedWasThere(c: Checks, table: Table, registries: seq<Registry>, q: nat)
    requires WriteRegistries(c, table, registries).Ok? && q < |registries| && registries[q].expected.Some?
    requires Trim(registries[q].id) !in Ids(registries[..q])
    ensures Expects(table, Trim(registries[q].id), registries[q].expected.value)
  {
    hide Trim;
    if WriteRegistries(c, table, registries[..q+1]).Err? { FirstFailureStays(c, table, registries, q + 1); }
    assert registries[..q+1][..q] == registries[..q];
    RegistriesKept(c, table, registries[..q]);
  }

  /** Calls that write registries, one after the other. A call that fails changes nothing. */
  ghost predicate IsRegistryRun(c: Checks, tables: seq<Table>, calls: seq<seq<Registry>>) {
    && |tables| == |calls| + 1
    && forall i | 0 <= i < |calls| :: RegistryStep(c, tables[i], calls[i], tables[i+1])
  }

  ghost predicate RegistryStep(c: Checks, table: Table, registries: seq<Registry>, table': Table) {
    table' == if WriteRegistries(c, table, registries).Ok? then WriteRegistries(c, table, registries).value else table
  }

  /** The call brought a registry back to a text that is expected, and it went through and named it. */
  ghost predicate BroughtBack(c: Checks, tables: seq<Table>, calls: seq<seq<Registry>>, id: string, expected: string, m: nat)
    requires m + 1 < |tables| && m < |calls|
  {
    && !Expects(tables[m], id, expected) && Expects(tables[m+1], id, expected)
    && WriteRegistries(c, tables[m], calls[m]).Ok? && id in Ids(calls[m])
  }

  lemma {:induction false} BroughtBackByCall(c: Checks, tables: seq<Table>, calls: seq<seq<Registry>>, id: string, expected: string, i: nat, j: nat)
    returns (m: nat)
    requires IsRegistryRun(c, tables, calls) && i <= j < |tables|
    requires !Expects(tables[i], id, expected) && Expects(tables[j], id, expected)
    ensures i <= m < j && BroughtBack(c, tables, calls, id, expected, m)
    decreases j
  {
    hide Trim, WriteRegistries, Ids;
    if Expects(tables[j-1], id, expected) {
      m := BroughtBackByCall(c, tables, calls, id, expected, i, j - 1);
    } else {
      m := j - 1;
      assert RegistryStep(c, tables[m], calls[m], tables[m+1]);
      if WriteRegistries(c, tables[m], calls[m]).Ok? { RegistriesKept(c, tables[m], calls[m]); }
    }
  }

  /** A call does not get past a registry that is not what it expects, however many calls were in between,
      unless one of them wrote the expected text back. */
  lemma ChangedRegistryNeedsRestore(c: Checks, tables: seq<Table>, calls: seq<seq<Registry>>, i: nat, j: nat, q: nat) returns (m: nat)
    requires IsRegistryRun(c, tables, calls) && i <= j < |calls| && WriteRegistries(c, tables[j], calls[j]).Ok?
    requires q < |calls[j]| && calls[j][q].expected.Some? && Trim(calls[j][q].id) !in Ids(calls[j][..q])
    requires !Expects(tables[i], Trim(calls[j][q].id), calls[j][q].expected.value)
    ensures i <= m < j && BroughtBack(c, tables, calls, Trim(calls[j][q].id), calls[j][q].expected.value, m)
  {
    hide Trim, WriteRegistries, Ids, Expects;
    ExpectedWasThere(c, tables[j], calls[j], q);
    m := BroughtBackByCall(c, tables, calls, Trim(calls[j][q].id), calls[j][q].expected.value, i, j);
  }

  lemma TrimTwice(s: string)
    ensures Trim(Trim(s)) == Trim(s)
  {
    TrimStartDone(s);
    TrimEndDone(TrimStart(s));
    var t := Trim(s);
    if t != [] {
      TrimStartDone(t);
      assert TrimStart(t) == t && TrimEnd(t) == t;
    }
  }

  // ---------------------------------------------------------------- the program

  /** The keys a batch really wrote. */
  function Changed(rows: Table, batch: Table): set<string> {
    set k | k in batch && Wins(rows, k, batch[k])
  }

  function Superseded(rows: Table, batch: Table): map<string, string> {
    map k | k in batch && !Wins(rows, k, batch[k]) :: rows[k].value
  }

  /** Of a batch exactly the records that are older than what is stored are left out; they are reported with
      what is stored, and the others replace it. */
  lemma BatchMeans(rows: Table, batch: Table)
    ensures Apply(rows, batch).Keys == rows.Keys + batch.Keys
    ensures forall k | k in rows && k !in batch :: Apply(rows, batch)[k] == rows[k]
    ensures forall k | k in batch :: k in Superseded(rows, batch) <==> k in rows && Less(batch[k].updatedAt, rows[k].updatedAt)
    ensures forall k | k in Superseded(rows, batch) ::
      k in batch && k !in Changed(rows, batch) && Apply(rows, batch)[k] == rows[k] && Superseded(rows, batch)[k] == rows[k].value
    ensures forall k | k in batch && k !in Superseded(rows, batch) :: k in Changed(rows, batch) && Apply(rows, batch)[k] == batch[k]
    ensures Changed(rows, batch) <= batch.Keys
  {
  }

  lemma ChangedIs(rows: Table, batch: Table)
    ensures batch.Keys - Superseded(rows, batch).Keys == Changed(rows, batch)
  {
  }

  lemma NothingApplied(rows: Table, todo: Table)
    ensures Apply(rows, todo - todo.Keys) == rows && Superseded(rows, todo - todo.Keys) == map[]
  {
  }

  lemma OneMoreApplied(rows: Table, todo: Table, left: set<string>, key: string)
    requires key in left && left <= todo.Keys
    ensures var work, more := Apply(rows, todo - left), todo - (left - {key});
      && (Wins(work, key, todo[key]) <==> Wins(rows, key, todo[key]))
      && Apply(rows, more) == (if Wins(work, key, todo[key]) then work[key := todo[key]] else work)
      && (!Wins(work, key, todo[key]) ==> key in rows && work[key] == rows[key])
      && (!Wins(work, key, todo[key]) ==> key in Superseded(rows, todo) && Superseded(rows, todo)[key] == rows[key].value)
      && Superseded(rows, more) == (if Wins(work, key, todo[key]) then Superseded(rows, todo - left)
                                    else Superseded(rows, todo - left)[key := work[key].value])
  {
    var more := todo - (left - {key});
    assert more == (todo - left)[key := todo[key]];
  }

  /** A workspace registry that is one, newer than what is stored and expecting it. */
  predicate CanSync(c: Checks, rows: Table, input: Input, expected: string) {
    && c.isValue(Trim(input.value)) && c.isWorkspaceRegistry(Trim(input.value)) && IsSortable(Trim(input.updatedAt))
    && (Trim(expected) == NULL || c.isValue(Trim(expected)))
    && Expects(rows, WORKSPACE_REGISTRY, expected) && Wins(rows, WORKSPACE_REGISTRY, RowFor(input))
  }

  class Stores {
    const checks: Checks
    var rows: Table
    var registries: Table
    var events: seq<Event>
    /** How many statements failed so far. */
    var failures: nat

    constructor (checks: Checks, rows: Table, registries: Table)
      ensures this.checks == checks && this.rows == rows && this.registries == registries && events == [] && failures == 0
    {
      this.checks, this.rows, this.registries, events, failures := checks, rows, registries, [], 0;
    }

    method StatementFails() returns (fails: bool)
      modifies this`failures
      ensures failures == old(failures) + if fails then 1 else 0
    {
      fails := *;
      if fails { failures := failures + 1; }
    }

    /** Writes a batch; records older than what is stored are left out and reported. */
    method WriteRecords(records: seq<Record>) returns (r: Result<map<string, string>, Error>, ghost batch: Table)
      modifies this
      ensures r.Err? ==> rows == old(rows) && registries == old(registries) && events == old(events)
      ensures r.Ok? ==>
        && IsBatchOf(checks, records, batch) && Commits(old(rows), Batch(batch), rows) && registries == old(registries)
        && r.value == Superseded(old(rows), batch)
        && events == old(events) + (if Changed(old(rows), batch) == {} then [] else [StateCommitted(Changed(old(rows), batch))])
      ensures failures >= old(failures) && (r == Err(WriteFailed) <==> failures > old(failures))
      ensures AllAcceptable(checks, records) ==> IsBatchOf(checks, records, batch)
      ensures r.Ok? <==> failures == old(failures) && AllAcceptable(checks, records) && AllValid(checks, Superseded(old(rows), batch))
    {
      batch := map[];
      var validated := ValidateRecords(checks, records);
      if validated.Err? { return Err(validated.error), batch; }
      var todo := validated.value;
      batch := todo;
      hide IsBatchOf, AllAcceptable, AllValid, Apply, Superseded, Changed;
      var fails := StatementFails();
      if fails { return Err(WriteFailed), batch; }
      var work, superseded := RunBatch(todo);
      if superseded.Err? { return Err(superseded.error), batch; }
      fails := StatementFails();
      if fails { return Err(WriteFailed), batch; }
      rows := work;
      var changed := todo.Keys - superseded.value.Keys;
      ChangedIs(old(rows), todo);
      if changed != {} { events := events + [StateCommitted(changed)]; }
      return superseded, batch;
    }

    /** The statements of a batch: the table as the transaction sees it after them, and what was too old. */
    method RunBatch(todo: Table) returns (work: Table, r: Result<map<string, string>, Error>)
      modifies this`failures
      ensures failures >= old(failures) && (r.Ok? || r == Err(ValueInvalid) ==> failures == old(failures))
      ensures r == Err(WriteFailed) ==> failures > old(failures)
      ensures r.Ok? ==> work == Apply(rows, todo) && r.value == Superseded(rows, todo) && AllValid(checks, r.value)
      ensures r.Err? ==> r.error in {WriteFailed, ValueInvalid}
      ensures r == Err(ValueInvalid) ==> !AllValid(checks, Superseded(rows, todo))
    {
      work := rows;
      var superseded: map<string, string> := map[];
      var left := todo.Keys;
      NothingApplied(rows, todo);
      hide Apply, Superseded;
      while left != {}
        invariant left <= todo.Keys
        invariant work == Apply(rows, todo - left) && superseded == Superseded(rows, todo - left)
        invariant AllValid(checks, superseded)
        invariant failures == old(failures)
        decreases |left|
      {
        var key :| key in left;
        var fails := StatementFails();
        if fails { return work, Err(WriteFailed); }
        OneMoreApplied(rows, todo, left, key);
        if Wins(work, key, todo[key]) {
          work := work[key := todo[key]];
        } else {
          var value := work[key].value;
          if !checks.isValue(Trim(value)) { return work, Err(ValueInvalid); }
          superseded := superseded[key := value];
        }
        left := left - {key};
      }
      assert todo - left == todo;
      return work, Ok(superseded);
    }

    /** Writes one record if the stored value is the expected one and not newer. */
    method CompareAndWrite(key: string, expected: Option<string>, input: Input) returns (r: Outcome<Error>)
      modifies this
      ensures r.Fail? ==> rows == old(rows) && registries == old(registries) && events == old(events)
      ensures r.Pass? ==>
        && Commits(old(rows), Compare(Trim(key), expected, RowFor(input)), rows) && registries == old(registries)
        && events == old(events) + [StateCommitted({Trim(key)})]
      ensures failures >= old(failures) && (r == Fail(WriteFailed) <==> failures > old(failures))
      ensures r.Pass? <==>
        && failures == old(failures) && Acceptable(checks, Record(key, input))
        && (expected.Some? ==> checks.isValue(Trim(expected.value)))
        && CasAllowed(old(rows), Trim(key), expected, RowFor(input))
      ensures r == Fail(Conflict) <==>
        && failures == old(failures) && Acceptable(checks, Record(key, input))
        && (expected.Some? ==> checks.isValue(Trim(expected.value)))
        && !CasAllowed(old(rows), Trim(key), expected, RowFor(input))
    {
      var checked := CheckRecord(checks, Record(key, input));
      if checked.Err? { return Fail(checked.error); }
      if expected.Some? && !checks.isValue(Trim(expected.value)) { return Fail(ValueInvalid); }
      var fails := StatementFails();
      if fails { return Fail(WriteFailed); }
      var current := Stored(rows, Trim(key));
      if current != expected || (Trim(key) in rows && Less(checked.value.updatedAt, rows[Trim(key)].updatedAt)) {
        return Fail(Conflict);
      }
      var work := rows[Trim(key) := checked.value];
      fails := StatementFails();
      if fails { return Fail(WriteFailed); }
      rows := work;
      events := events + [StateCommitted({Trim(key)})];
      return Pass;
    }

    /** The workspace registry that comes with a sync, as the table after it. */
    method SyncWorkspaceRegistry(input: Input, expected: string) returns (r: Result<Table, Error>, row: Row)
      modifies this`failures
      ensures row == RowFor(input) && failures >= old(failures) && (r == Err(WriteFailed) <==> failures > old(failures))
      ensures r.Ok? ==> Commits(rows, Sync(expected, row), r.value)
      ensures r.Ok? <==> failures == old(failures) && CanSync(checks, rows, input, expected)
      ensures r == Err(RevisionConflict) ==> !Expects(rows, WORKSPACE_REGISTRY, expected) || !Wins(rows, WORKSPACE_REGISTRY, row)
    {
      row := Row(Trim(input.value), Trim(input.updatedAt));
      if !checks.isValue(row.value) || !checks.isWorkspaceRegistry(row.value) { return Err(RegistryJsonInvalid), row; }
      if Trim(expected) != NULL && !checks.isValue(Trim(expected)) { return Err(RegistryJsonInvalid), row; }
      if !IsSortable(row.updatedAt) { return Err(RegistryJsonInvalid), row; }
      var fails := StatementFails();
      if fails { return Err(WriteFailed), row; }
      var matches := if WORKSPACE_REGISTRY in rows
        then Trim(rows[WORKSPACE_REGISTRY].value) == Trim(expected) && !Less(row.updatedAt, rows[WORKSPACE_REGISTRY].updatedAt)
        else Trim(expected) == NULL;
      if !matches { return Err(RevisionConflict), row; }
      return Ok(rows[WORKSPACE_REGISTRY := row]), row;
    }

    /** The registries of a call one after the other, as the table after them. */
    method WriteEntries(entries: seq<Registry>) returns (r: Result<Table, Error>)
      modifies this`failures
      ensures failures >= old(failures) && (r == Err(WriteFailed) <==> failures > old(failures))
      ensures r.Ok? <==> failures == old(failures) && WriteRegistries(checks, registries, entries).Ok?
      ensures r.Ok? ==> r == WriteRegistries(checks, registries, entries)
    {
      var work := registries;
      for i := 0 to |entries|
        invariant WriteRegistries(checks, registries, entries[..i]) == Ok(work) && failures == old(failures)
      {
        assert entries[..i+1][..i] == entries[..i];
        var written := WriteRegistry(checks, work, entries[i]);
        if written.Err? {
          FirstFailureStays(checks, registries, entries, i + 1);
          return written;
        }
        var fails := StatementFails();
        if fails { return Err(WriteFailed); }
        work := written.value;
      }
      assert entries[..|entries|] == entries;
      return Ok(work);
    }

    /** Writes registries, and the workspace registry with them, all or none. */
    method WriteProjectRegistries(entries: seq<Registry>, workspace: Option<Input>, expected: string) returns (r: Outcome<Error>)
      modifies this
      ensures r.Fail? ==> rows == old(rows) && registries == old(registries) && events == old(events)
      ensures r.Pass? ==>
        && WriteRegistries(checks, old(registries), entries) == Ok(registries)
        && (workspace.None? ==> rows == old(rows))
        && (workspace.Some? ==>
              Commits(old(rows), Sync(expected, RowFor(workspace.value)), rows))
        && events == old(events) + (if entries == [] then [] else [RegistriesCommitted(Ids(entries))])
                                 + (if workspace.None? then [] else [StateCommitted({WORKSPACE_REGISTRY})])
      ensures failures >= old(failures) && (r == Fail(WriteFailed) <==> failures > old(failures))
      ensures r.Pass? <==>
        && failures == old(failures) && WriteRegistries(checks, old(registries), entries).Ok?
        && (workspace.Some? ==> CanSync(checks, old(rows), workspace.value, expected))
    {
      var fails := StatementFails();
      if fails { return Fail(WriteFailed); }
      var workRows := rows;
      if workspace.Some? {
        var synced, row := SyncWorkspaceRegistry(workspace.value, expected);
        if synced.Err? { return Fail(synced.error); }
        workRows := synced.value;
      }
      hide Commits, CanSync;
      var written := WriteEntries(entries);
      if written.Err? { return Fail(written.error); }
      fails := StatementFails();
      if fails { return Fail(WriteFailed); }
      rows, registries := workRows, written.value;
      if entries != [] { events := events + [RegistriesCommitted(Ids(entries))]; }
      if workspace.Some? { events := events + [StateCommitted({WORKSPACE_REGISTRY})]; }
      return Pass;
    }
  }
}
