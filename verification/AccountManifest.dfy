/** Turning the frozen account manifest into the all-personal-data deletion plan. */
module AccountManifest {
  import opened Prelude
  import opened DeletionPlans
  import TextOrder
  import PlanDigest
  import PlanMerging

  /** One frozen row: its whole primary key, and the record id rendered from it. */
  datatype ManifestEntry = ManifestEntry(
    owner: string, tableName: string, recordId: string, primaryKey: Key, filePath: Option<string>)

  datatype Manifest = Manifest(
    userId: string, pseudonymId: string, policyVersion: string, blockingIssues: seq<string>,
      entries: seq<ManifestEntry>)

  datatype Table = Table(primaryKey: seq<PlanDigest.KeyColumn>, columns: set<string>)

  type Metadata = map<string, Table>

  /** The refusals, and the lookups that fail on a table or column the schema does not have. */
  datatype PlanError = ManifestInvalid | ManifestBlocked | PathInvalid | SchemaMismatch

  const POLICY: string := "account-deletion-v1"

  const LOCAL_FILES: string := "__local_files__"

  ghost predicate EntryAsks(e: ManifestEntry, row: Row) {
    e.tableName != LOCAL_FILES && row.table == e.tableName && Satisfies(row, e.primaryKey)
  }

  /** Some entry's primary key identifies the row. */
  ghost predicate Asked(entries: seq<ManifestEntry>, row: Row) {
    exists i :: 0 <= i < |entries| && EntryAsks(entries[i], row)
  }

  ghost predicate IsUserRow(row: Row, userId: string) {
    row.table == "users" && Satisfies(row, map["id" := Text(userId)])
  }

  /** Resolved paths of the entries that name a file, local or not. */
  ghost predicate Names(entries: seq<ManifestEntry>, resolve: string -> Option<Path>, path: Option<Path>) {
    exists i :: 0 <= i < |entries| && entries[i].filePath.Some? && resolve(entries[i].filePath.value) == path
  }

  datatype Column = Column(owner: string, table: string, name: string)

  type Gathered = map<Column, seq<Value>>

  ghost predicate InGathered(gathered: Gathered, row: Row) {
    exists k :: k in gathered && row.table == k.table && k.name in row.columns && row.columns[k.name] in gathered[k]
  }

  /** State of the grouping loop: single-column keys are gathered per owner, table and column; keys of several
      columns become operations of their own. */
  ghost predicate GroupedSoFar(
    entries: seq<ManifestEntry>, n: nat, order: seq<Column>, gathered: Gathered, composite: seq<Operation>)
    requires n <= |entries|
  {
    && gathered.Keys == Elements(order)
    && forall row :: Asked(entries[..n], row) <==> InGathered(gathered, row) || HitBy(composite, row)
  }

  function Append(gathered: Gathered, k: Column, v: Value): Gathered {
    gathered[k := (if k in gathered then gathered[k] else []) + [v]]
  }

  lemma AskedOneMore(entries: seq<ManifestEntry>, n: nat, row: Row)
    requires n < |entries|
    ensures Asked(entries[..n + 1], row) <==> Asked(entries[..n], row) || EntryAsks(entries[n], row)
  {
    if Asked(entries[..n], row) {
      var i :| 0 <= i < n && EntryAsks(entries[..n][i], row);
      assert EntryAsks(entries[..n + 1][i], row);
    }
    if EntryAsks(entries[n], row) { assert entries[..n + 1][n] == entries[n]; }
    if Asked(entries[..n + 1], row) {
      var i :| 0 <= i < n + 1 && EntryAsks(entries[..n + 1][i], row);
      assert i < n ==> entries[..n][i] == entries[..n + 1][i];
    }
  }

  lemma AppendGathers(gathered: Gathered, k: Column, v: Value, row: Row)
    ensures InGathered(Append(gathered, k, v), row) <==>
            InGathered(gathered, row) || (row.table == k.table && Satisfies(row, map[k.name := v]))
  {
    var g := Append(gathered, k, v);
    assert Satisfies(row, map[k.name := v]) <==> k.name in row.columns && row.columns[k.name] == v;
    if InGathered(gathered, row) {
      var x :| x in gathered && row.table == x.table && x.name in row.columns && row.columns[x.name] in gathered[x];
      assert x in g && row.columns[x.name] in g[x];
    }
    if row.table == k.table && Satisfies(row, map[k.name := v]) {
      assert k in g && row.columns[k.name] in g[k];
    }
  }

  lemma HitByOne(op: Operation, row: Row)
    ensures HitBy([op], row) <==> Hits(op, row)
  {
    assert [op][0] == op;
  }

  lemma SkipLocalFile(entries: seq<ManifestEntry>, n: nat, order: seq<Column>, gathered: Gathered,
      composite: seq<Operation>)
    requires n < |entries| && GroupedSoFar(entries, n, order, gathered, composite)
    requires entries[n].tableName == LOCAL_FILES
    ensures GroupedSoFar(entries, n + 1, order, gathered, composite)
  {
    forall row ensures Asked(entries[..n + 1], row) <==> InGathered(gathered, row) || HitBy(composite, row) {
      AskedOneMore(entries, n, row);
    }
  }

  lemma AddComposite(
    entries: seq<ManifestEntry>, n: nat, order: seq<Column>, gathered: Gathered, composite: seq<Operation>,
      op: Operation)
    requires n < |entries| && GroupedSoFar(entries, n, order, gathered, composite)
    requires entries[n].tableName != LOCAL_FILES
    requires op.table == entries[n].tableName && op.exactPredicates == [entries[n].primaryKey]
    ensures GroupedSoFar(entries, n + 1, order, gathered, composite + [op])
  {
    forall row ensures Asked(entries[..n + 1], row) <==> InGathered(gathered, row) || HitBy(composite + [op], row) {
      AskedOneMore(entries, n, row);
      HitByEither(composite, [op], row);
      HitByOne(op, row);
      assert Hits(op, row) <==> EntryAsks(entries[n], row);
    }
  }

  lemma AddSingle(
    entries: seq<ManifestEntry>, n: nat, order: seq<Column>, gathered: Gathered, composite: seq<Operation>, k: Column,
      v: Value)
    requires n < |entries| && GroupedSoFar(entries, n, order, gathered, composite)
    requires entries[n].tableName != LOCAL_FILES
    requires k.table == entries[n].tableName && entries[n].primaryKey == map[k.name := v]
    ensures GroupedSoFar(entries, n + 1, if k in gathered then order else order + [k], Append(gathered, k, v),
      composite)
  {
    forall row ensures Asked(entries[..n + 1], row)
      <==> InGathered(Append(gathered, k, v), row) || HitBy(composite, row) {
      AskedOneMore(entries, n, row);
      AppendGathers(gathered, k, v, row);
    }
  }

  function AsOperation(k: Column, ids: seq<Value>): Operation {
    Operation(k.owner, k.table, k.name, ids, [])
  }

  lemma GatheredAsOperations(order: seq<Column>, gathered: Gathered, ops: seq<Operation>, row: Row)
    requires gathered.Keys == Elements(order) && |ops| == |order|
    requires forall i :: 0 <= i < |ops| ==> order[i] in gathered && ops[i] == AsOperation(order[i], gathered[order[i]])
    ensures HitBy(ops, row) <==> InGathered(gathered, row)
  {
    if HitBy(ops, row) {
      var i :| 0 <= i < |ops| && Hits(ops[i], row);
      assert order[i] in gathered;
    }
    if InGathered(gathered, row) {
      var k :| k in gathered && row.table == k.table && k.name in row.columns && row.columns[k.name] in gathered[k];
      var i :| 0 <= i < |order| && order[i] == k;
      assert Hits(ops[i], row);
    }
  }

  function Finalize(userId: string): Operation {
    Operation("IDENTITY_FINALIZE", "users", "id", [Text(userId)], [])
  }

  lemma WholePlan(
    entries: seq<ManifestEntry>, g: Grouping, ops: seq<Operation>, userId: string, row: Row)
    requires Groups(entries, |entries|, g) && AreOperations(ops, g)
    ensures HitBy(ops + g.composite + [Finalize(userId)], row) <==> Asked(entries, row) || IsUserRow(row, userId)
  {
    assert entries[..|entries|] == entries;
    GatheredAsOperations(g.order, g.gathered, ops, row);
    HitByEither(ops, g.composite, row);
    HitByEither(ops + g.composite, [Finalize(userId)], row);
    HitByOne(Finalize(userId), row);
    assert Satisfies(row, map["id" := Text(userId)]) <==> "id" in row.columns && row.columns["id"] == Text(userId);
  }

  method SoleColumn(key: Key) returns (column: string)
    requires |key| == 1
    ensures column in key && key == map[column := key[column]]
  {
    column :| column in key.Keys;
    assert |key.Keys - {column}| == 0;
    assert key.Keys == {column};
  }

  // ---------------------------------------------------------------- how the plan is keyed

  /** Tables with one key column are named by its values, the others row by row. */
  function AccountKeying(metadata: Metadata): string -> PlanDigest.Keying {
    (table: string) =>
      if table in metadata && |metadata[table].primaryKey| == 1 then PlanDigest.ByColumn(metadata[table].primaryKey[0])
      else PlanDigest.ByRecord(if table in metadata then metadata[table].primaryKey else [])
  }

  /** The entry as the inventory freezes it: the whole key of its table, and that key's rendering. */
  ghost predicate Frozen(e: ManifestEntry, metadata: Metadata) {
    e.tableName != LOCAL_FILES ==>
      && e.tableName in metadata && |e.primaryKey| == |metadata[e.tableName].primaryKey|
      && PlanDigest.FitsColumns(e.primaryKey, metadata[e.tableName].primaryKey)
      && e.recordId == PlanDigest.RecordIdOf(metadata[e.tableName].primaryKey, e.primaryKey)
  }

  /** An entry whose table and key columns the schema has. */
  predicate InSchema(e: ManifestEntry, metadata: Metadata) {
    e.tableName != LOCAL_FILES ==>
      && e.tableName in metadata && e.primaryKey.Keys <= metadata[e.tableName].columns
      && (|e.primaryKey| != 1 ==> metadata[e.tableName].primaryKey != [])
  }

  ghost predicate GatheredKeyed(gathered: Gathered, metadata: Metadata) {
    forall k :: k in gathered ==> PlanDigest.KeyedBy(AsOperation(k, gathered[k]), AccountKeying(metadata)(k.table))
  }

  ghost predicate CompositeKeyed(composite: seq<Operation>, metadata: Metadata) {
    forall i :: 0 <= i < |composite| ==> PlanDigest.KeyedBy(composite[i], AccountKeying(metadata)(composite[i].table))
  }

  ghost predicate KeyedSoFar(entries: seq<ManifestEntry>, n: nat, g: Grouping, metadata: Metadata)
    requires n <= |entries|
  {
    (forall i :: 0 <= i < n ==> Frozen(entries[i], metadata)) ==>
      GatheredKeyed(g.gathered, metadata) && CompositeKeyed(g.composite, metadata)
  }

  /** Single columns seen before the first column check: their tables are known, their columns not yet. */
  ghost predicate InSchemaSoFar(entries: seq<ManifestEntry>, n: nat, g: Grouping, metadata: Metadata)
    requires n <= |entries|
  {
    && (forall k :: k in g.gathered ==> k.table in metadata)
    && ((forall i :: 0 <= i < n ==> InSchema(entries[i], metadata)) <==>
        forall k :: k in g.gathered ==> k.name in metadata[k.table].columns)
  }

  // ---------------------------------------------------------------- the grouping loop

  datatype Grouping = Grouping(order: seq<Column>, gathered: Gathered, composite: seq<Operation>)

  ghost predicate Groups(entries: seq<ManifestEntry>, n: nat, g: Grouping)
    requires n <= |entries|
  {
    GroupedSoFar(entries, n, g.order, g.gathered, g.composite)
  }

  /** What the loop has established after n entries. */
  ghost predicate Done(entries: seq<ManifestEntry>, n: nat, g: Grouping, metadata: Metadata)
    requires n <= |entries|
  {
    && Groups(entries, n, g) && KeyedSoFar(entries, n, g, metadata) && InSchemaSoFar(entries, n, g, metadata)
    && forall i :: 0 <= i < |g.composite| ==> |g.composite[i].exactPredicates| == |g.composite[i].recordIds| == 1
  }

  /** The row part of one entry; None when its table, or a column of its composite key, is not in the schema. */
  method AddEntry(ghost entries: seq<ManifestEntry>, ghost n: nat, e: ManifestEntry, g: Grouping, metadata: Metadata)
    returns (r: Option<Grouping>)
    requires n < |entries| && e == entries[n] && e.tableName != LOCAL_FILES && Done(entries, n, g, metadata)
    ensures r.Some? ==> Done(entries, n + 1, r.value, metadata)
    ensures r.None? ==> !InSchema(e, metadata)
  {
    hide Done;
    if e.tableName !in metadata {
      return None;
    }
    if |e.primaryKey| != 1 {
      if metadata[e.tableName].primaryKey == [] || !(e.primaryKey.Keys <= metadata[e.tableName].columns) {
        return None;
      }
      var op := Operation(e.owner, e.tableName, metadata[e.tableName].primaryKey[0].name, [Text(e.recordId)],
        [e.primaryKey]);
      CompositeDone(entries, n, g, op, metadata);
      return Some(g.(composite := g.composite + [op]));
    }
    var column := SoleColumn(e.primaryKey);
    var k, value := Column(e.owner, e.tableName, column), e.primaryKey[column];
    SingleDone(entries, n, g, k, value, metadata);
    var order := if k in g.gathered then g.order else g.order + [k];
    r := Some(Grouping(order, Append(g.gathered, k, value), g.composite));
  }

  lemma CompositeDone(entries: seq<ManifestEntry>, n: nat, g: Grouping, op: Operation, metadata: Metadata)
    requires n < |entries| && Done(entries, n, g, metadata)
    requires entries[n].tableName != LOCAL_FILES && InSchema(entries[n], metadata) && |entries[n].primaryKey| != 1
    requires op.table == entries[n].tableName && op.recordIds == [Text(entries[n].recordId)]
    requires op.exactPredicates == [entries[n].primaryKey]
    ensures Done(entries, n + 1, g.(composite := g.composite + [op]), metadata)
  {
    AddComposite(entries, n, g.order, g.gathered, g.composite, op);
    CompositeIsKeyed(entries[n], op, metadata);
  }

  lemma SingleDone(entries: seq<ManifestEntry>, n: nat, g: Grouping, k: Column, v: Value, metadata: Metadata)
    requires n < |entries| && Done(entries, n, g, metadata)
    requires entries[n].tableName == k.table != LOCAL_FILES && k.table in metadata
      && entries[n].primaryKey == map[k.name := v]
    ensures Done(entries, n + 1,
                 Grouping(if k in g.gathered then g.order else g.order + [k], Append(g.gathered, k, v), g.composite),
                   metadata)
  {
    hide GatheredKeyed, CompositeKeyed, Frozen, GroupedSoFar, InSchemaSoFar;
    AddSingle(entries, n, g.order, g.gathered, g.composite, k, v);
    GatheredStaysKeyed(entries[n], g.gathered, k, v, metadata);
    assert |entries[n].primaryKey| == 1;
    var order := if k in g.gathered then g.order else g.order + [k];
    SingleInSchema(entries, n, g, Grouping(order, Append(g.gathered, k, v), g.composite), k, metadata);
  }

  lemma CompositeIsKeyed(e: ManifestEntry, op: Operation, metadata: Metadata)
    requires op.table == e.tableName != LOCAL_FILES && op.recordIds == [Text(e.recordId)]
      && op.exactPredicates == [e.primaryKey]
    requires |e.primaryKey| != 1
    ensures Frozen(e, metadata) ==> PlanDigest.KeyedBy(op, AccountKeying(metadata)(op.table))
  {}

  lemma GatheredStaysKeyed(e: ManifestEntry, gathered: Gathered, k: Column, v: Value, metadata: Metadata)
    requires k.table == e.tableName != LOCAL_FILES && e.primaryKey == map[k.name := v]
    ensures Frozen(e, metadata) && GatheredKeyed(gathered, metadata) ==> GatheredKeyed(Append(gathered, k, v), metadata)
  {
    if Frozen(e, metadata) && GatheredKeyed(gathered, metadata) {
      var columns := metadata[e.tableName].primaryKey;
      assert PlanDigest.FitsColumn(e.primaryKey, columns[0]);
      assert columns[0].name == k.name && v.Text? == columns[0].textual;
      var more := Append(gathered, k, v);
      forall c | c in more
        ensures PlanDigest.KeyedBy(AsOperation(c, more[c]), AccountKeying(metadata)(c.table))
      {
        if c in gathered { assert PlanDigest.KeyedBy(AsOperation(c, gathered[c]), AccountKeying(metadata)(c.table)); }
      }
    }
  }

  lemma SingleInSchema(
    entries: seq<ManifestEntry>, n: nat, g: Grouping, h: Grouping, k: Column, metadata: Metadata)
    requires n < |entries| && InSchemaSoFar(entries, n, g, metadata) && entries[n].tableName == k.table != LOCAL_FILES
    requires k.table in metadata && entries[n].primaryKey.Keys == {k.name} && |entries[n].primaryKey| == 1
    requires h.gathered.Keys == g.gathered.Keys + {k}
    ensures InSchemaSoFar(entries, n + 1, h, metadata)
  {
    assert InSchema(entries[n], metadata) <==> k.name in metadata[k.table].columns;
  }

  ghost predicate FilesSoFar(entries: seq<ManifestEntry>, n: nat, resolve: string -> Option<Path>, files: set<Path>)
    requires n <= |entries|
  {
    && (forall i :: 0 <= i < n && entries[i].filePath.Some? ==>
          resolve(entries[i].filePath.value).Some? && resolve(entries[i].filePath.value).value in files)
    && forall f :: f in files ==> Names(entries, resolve, Some(f))
  }

  method GroupEntries(entries: seq<ManifestEntry>, metadata: Metadata, resolve: string -> Option<Path>)
    returns (r: Result<Grouping, PlanError>, files: set<Path>)
    ensures r.Ok? ==> Done(entries, |entries|, r.value, metadata) && FilesSoFar(entries, |entries|, resolve, files)
    ensures r.Err? ==> r.error == PathInvalid || r.error == SchemaMismatch
    ensures r == Err(PathInvalid) ==> Names(entries, resolve, None)
    ensures r == Err(SchemaMismatch) ==> exists i :: 0 <= i < |entries| && !InSchema(entries[i], metadata)
  {
    hide Done, FilesSoFar;
    var g := Grouping([], map[], []);
    files := {};
    NothingDone(entries, metadata, resolve);
    for n := 0 to |entries|
      invariant Done(entries, n, g, metadata) && FilesSoFar(entries, n, resolve, files)
    {
      var e := entries[n];
      if e.filePath.Some? {
        if resolve(e.filePath.value).None? {
          return Err(PathInvalid), {};
        }
        NextFile(entries, n, resolve, files);
        files := files + {resolve(e.filePath.value).value};
      } else {
        NoFile(entries, n, resolve, files);
      }
      if e.tableName == LOCAL_FILES {
        LocalFileDone(entries, n, g, metadata);
      } else {
        var next := AddEntry(entries, n, e, g, metadata);
        if next.None? {
          return Err(SchemaMismatch), {};
        }
        g := next.value;
      }
    }
    r := Ok(g);
  }

  lemma NothingDone(entries: seq<ManifestEntry>, metadata: Metadata, resolve: string -> Option<Path>)
    ensures Done(entries, 0, Grouping([], map[], []), metadata) && FilesSoFar(entries, 0, resolve, {})
  {}

  lemma LocalFileDone(entries: seq<ManifestEntry>, n: nat, g: Grouping, metadata: Metadata)
    requires n < |entries| && entries[n].tableName == LOCAL_FILES && Done(entries, n, g, metadata)
    ensures Done(entries, n + 1, g, metadata)
  {
    SkipLocalFile(entries, n, g.order, g.gathered, g.composite);
    assert InSchema(entries[n], metadata);
  }

  lemma NextFile(entries: seq<ManifestEntry>, n: nat, resolve: string -> Option<Path>, files: set<Path>)
    requires n < |entries| && FilesSoFar(entries, n, resolve, files)
    requires entries[n].filePath.Some? && resolve(entries[n].filePath.value).Some?
    ensures FilesSoFar(entries, n + 1, resolve, files + {resolve(entries[n].filePath.value).value})
  {}

  lemma NoFile(entries: seq<ManifestEntry>, n: nat, resolve: string -> Option<Path>, files: set<Path>)
    requires n < |entries| && FilesSoFar(entries, n, resolve, files) && entries[n].filePath.None?
    ensures FilesSoFar(entries, n + 1, resolve, files)
  {}

  // ---------------------------------------------------------------- the plan

  ghost predicate AreOperations(ops: seq<Operation>, g: Grouping) {
    && g.gathered.Keys == Elements(g.order) && |ops| == |g.order|
    && forall i :: 0 <= i < |ops| ==>
      g.order[i] in g.gathered && ops[i] == AsOperation(g.order[i], g.gathered[g.order[i]])
  }

  /** One operation for each gathered column, unless the schema lacks a column. */
  method BuildOperations(g: Grouping, metadata: Metadata) returns (r: Option<seq<Operation>>)
    requires g.gathered.Keys == Elements(g.order) && forall k :: k in g.gathered ==> k.table in metadata
    ensures r.Some? <==> forall k :: k in g.gathered ==> k.name in metadata[k.table].columns
    ensures r.Some? ==> AreOperations(r.value, g)
  {
    var ops: seq<Operation> := [];
    for i := 0 to |g.order|
      invariant |ops| == i
      invariant
        forall j :: 0 <= j < i ==> g.order[j] in g.gathered && ops[j] == AsOperation(g.order[j], g.gathered[g.order[j]])
      invariant forall j :: 0 <= j < i ==> g.order[j].name in metadata[g.order[j].table].columns
    {
      var k := g.order[i];
      assert k in Elements(g.order);
      if k.name !in metadata[k.table].columns {
        return None;
      }
      ops := ops + [AsOperation(k, g.gathered[k])];
    }
    return Some(ops);
  }

  /** Single columns come first, the row-by-row operations behind all of them, the user row last. */
  ghost predicate ColumnsFirst(ops: seq<Operation>, columns: nat) {
    && columns < |ops| && (forall i :: 0 <= i < columns ==> ops[i].exactPredicates == [])
    && forall i :: columns <= i < |ops| - 1 ==> ops[i].exactPredicates != []
  }

  /** What the plan deletes and removes, in which order, and how it is listed. */
  ghost predicate PlansTheAccount(
    plan: Plan, entries: seq<ManifestEntry>, userId: string, metadata: Metadata, resolve: string -> Option<Path>)
  {
    && (forall row :: HitBy(plan.operations, row) <==> Asked(entries, row) || IsUserRow(row, userId))
    && (exists earlier :: plan.operations == earlier + [Finalize(userId)])
    && (exists columns: nat :: ColumnsFirst(plan.operations, columns))
    && (forall f :: f in plan.files <==> Names(entries, resolve, Some(f))) && TextOrder.Ascending(plan.files)
    && (forall i :: 0 <= i < |plan.operations| ==>
          |plan.operations[i].exactPredicates| <= |plan.operations[i].recordIds|)
    && ((forall i :: 0 <= i < |entries| ==> Frozen(entries[i], metadata)) && UsersKeyed(metadata) ==>
          PlanDigest.Keyed(plan, AccountKeying(metadata)))
  }

  ghost predicate UsersKeyed(metadata: Metadata) {
    "users" in metadata && metadata["users"].primaryKey == [PlanDigest.KeyColumn("id", true)]
  }

  ghost predicate ManifestFits(manifest: Option<Manifest>, userId: string, pseudonymId: string) {
    && manifest.Some? && manifest.value.userId == userId && manifest.value.pseudonymId == pseudonymId
    && manifest.value.policyVersion == POLICY
  }

  /** The all-personal-data plan names exactly the manifest's rows and the user row: tables with one key column first,
      then the others row by row, and the user row last, under its own owner; every named file is planned.  It is
      refused without the user's own manifest, on blocking issues, on a path that does not resolve, and on an entry
      the schema does not know. */
  method AllPersonalDataPlan(manifest: Option<Manifest>, userId: string, pseudonymId: string, metadata: Metadata,
                             resolve: string -> Option<Path>)
    returns (plan: Result<Plan, PlanError>)
    ensures plan == Err(ManifestInvalid) <==> !ManifestFits(manifest, userId, pseudonymId)
    ensures plan == Err(ManifestBlocked)
      <==> ManifestFits(manifest, userId, pseudonymId) && manifest.value.blockingIssues != []
    ensures ManifestFits(manifest, userId, pseudonymId) && manifest.value.blockingIssues == [] ==>
      var entries := manifest.value.entries;
      && (plan.Err? <==>
          Names(entries, resolve, None) || exists i :: 0 <= i < |entries| && !InSchema(entries[i], metadata))
      && (plan == Err(PathInvalid) ==> Names(entries, resolve, None))
      && (plan.Ok? ==> PlansTheAccount(plan.value, entries, userId, metadata, resolve))
  {
    if manifest.None? || manifest.value.userId != userId || manifest.value.pseudonymId != pseudonymId
       || manifest.value.policyVersion != POLICY {
      return Err(ManifestInvalid);
    }
    if manifest.value.blockingIssues != [] {
      return Err(ManifestBlocked);
    }
    plan := PlanFromEntries(manifest.value.entries, userId, metadata, resolve);
  }

  method PlanFromEntries(entries: seq<ManifestEntry>, userId: string, metadata: Metadata,
      resolve: string -> Option<Path>)
    returns (plan: Result<Plan, PlanError>)
    ensures plan.Err? <==>
              Names(entries, resolve, None) || exists i :: 0 <= i < |entries| && !InSchema(entries[i], metadata)
    ensures plan.Err? ==> plan.error == PathInvalid || plan.error == SchemaMismatch
    ensures plan == Err(PathInvalid) ==> Names(entries, resolve, None)
    ensures plan.Ok? ==> PlansTheAccount(plan.value, entries, userId, metadata, resolve)
  {
    hide PlansTheAccount, Names, InSchema;
    var grouping, files := GroupEntries(entries, metadata, resolve);
    if grouping.Err? {
      return Err(grouping.error);
    }
    var g := grouping.value;
    var operations := BuildOperations(g, metadata);
    AllFilesResolved(entries, resolve, files);
    if operations.None? {
      return Err(SchemaMismatch);
    }
    var sorted := PlanMerging.SortedFiles(files);
    plan := Ok(Plan(operations.value + g.composite + [Finalize(userId)], sorted));
    PlanIsTheAccount(entries, g, operations.value, files, sorted, userId, metadata, resolve);
  }

  lemma AllFilesResolved(entries: seq<ManifestEntry>, resolve: string -> Option<Path>, files: set<Path>)
    requires FilesSoFar(entries, |entries|, resolve, files)
    ensures !Names(entries, resolve, None) && forall f :: f in files <==> Names(entries, resolve, Some(f))
  {}

  lemma PlanIsTheAccount(entries: seq<ManifestEntry>, g: Grouping, ops: seq<Operation>, files: set<Path>,
      sorted: seq<Path>, userId: string, metadata: Metadata, resolve: string -> Option<Path>)
    requires Done(entries, |entries|, g, metadata) && AreOperations(ops, g)
    requires Elements(sorted) == files && TextOrder.Ascending(sorted)
    requires forall f :: f in files <==> Names(entries, resolve, Some(f))
    ensures PlansTheAccount(Plan(ops + g.composite + [Finalize(userId)], sorted), entries, userId, metadata, resolve)
  {
    var all := ops + g.composite + [Finalize(userId)];
    forall row
      ensures HitBy(all, row) <==> Asked(entries, row) || IsUserRow(row, userId)
    {
      WholePlan(entries, g, ops, userId, row);
    }
    assert ColumnsFirst(all, |ops|);
    assert forall f :: f in sorted <==> f in Elements(sorted);
    if (forall i :: 0 <= i < |entries| ==> Frozen(entries[i], metadata)) && UsersKeyed(metadata) {
      PlanIsKeyed(g, ops, userId, metadata);
    }
  }

  lemma PlanIsKeyed(g: Grouping, ops: seq<Operation>, userId: string, metadata: Metadata)
    requires AreOperations(ops, g) && GatheredKeyed(g.gathered, metadata) && CompositeKeyed(g.composite, metadata)
    requires UsersKeyed(metadata)
    ensures forall i :: 0 <= i < |ops + g.composite + [Finalize(userId)]| ==>
      PlanDigest.KeyedBy((ops + g.composite + [Finalize(userId)])[i],
                         AccountKeying(metadata)((ops + g.composite + [Finalize(userId)])[i].table))
  {
    var all := ops + g.composite + [Finalize(userId)];
    forall i | 0 <= i < |all|
      ensures PlanDigest.KeyedBy(all[i], AccountKeying(metadata)(all[i].table))
    {
      if i < |ops| {
        assert g.order[i] in g.gathered;
      } else if i < |ops| + |g.composite| {
        assert all[i] == g.composite[i - |ops|];
      } else {
        assert all[i] == Finalize(userId);
      }
    }
  }

  /** The entry's record id has no other reading. */
  ghost predicate Clear(e: ManifestEntry, metadata: Metadata) {
    Frozen(e, metadata) && e.tableName != LOCAL_FILES ==>
      |e.primaryKey| == 1 || PlanDigest.Unambiguous(metadata[e.tableName].primaryKey, e.primaryKey)
  }

  /** An operation that names one row names an entry's key. */
  lemma NamedKeyIsAnEntrys(plan: Plan, i: nat, entries: seq<ManifestEntry>, userId: string, metadata: Metadata,
                           resolve: string -> Option<Path>) returns (j: nat)
    requires PlansTheAccount(plan, entries, userId, metadata, resolve) && UsersKeyed(metadata)
    requires forall e :: 0 <= e < |entries| ==> Frozen(entries[e], metadata)
    requires i < |plan.operations| && AccountKeying(metadata)(plan.operations[i].table).ByRecord?
    ensures j < |entries| && entries[j].tableName == plan.operations[i].table != LOCAL_FILES
    ensures plan.operations[i].exactPredicates == [entries[j].primaryKey] && plan.operations[i].table in metadata
    ensures |metadata[plan.operations[i].table].primaryKey| != 1
  {
    var op := plan.operations[i];
    assert PlanDigest.KeyedBy(op, AccountKeying(metadata)(op.table));
    var key := op.exactPredicates[0];
    var probe := Row(op.table, key);
    assert key in op.exactPredicates && Satisfies(probe, key);
    assert Hits(op, probe) && HitBy(plan.operations, probe);
    assert !IsUserRow(probe, userId);
    j :| 0 <= j < |entries| && EntryAsks(entries[j], probe);
    assert Frozen(entries[j], metadata);
    SameColumnsSameKey(key, entries[j].primaryKey, metadata[op.table].primaryKey);
  }

  lemma SameColumnsSameKey(key: Key, part: Key, columns: seq<PlanDigest.KeyColumn>)
    requires PlanDigest.FitsColumns(key, columns) && PlanDigest.FitsColumns(part, columns)
    requires forall c :: c in part.Keys ==> c in key && key[c] == part[c]
    ensures key == part
  {
    forall c | c in key
      ensures c in part
    {
      var i :| 0 <= i < |PlanDigest.NamesOf(columns)| && PlanDigest.NamesOf(columns)[i] == c;
      assert PlanDigest.FitsColumn(part, columns[i]);
    }
  }

  lemma ClearEntriesClearPlan(plan: Plan, entries: seq<ManifestEntry>, userId: string, metadata: Metadata,
                              resolve: string -> Option<Path>)
    requires PlansTheAccount(plan, entries, userId, metadata, resolve) && UsersKeyed(metadata)
    requires forall i :: 0 <= i < |entries| ==> Frozen(entries[i], metadata) && Clear(entries[i], metadata)
    ensures PlanDigest.ClearlyListed(plan, AccountKeying(metadata))
  {
    forall i | 0 <= i < |plan.operations|
      ensures PlanDigest.ClearlyListedBy(plan.operations[i], AccountKeying(metadata)(plan.operations[i].table))
    {
      if AccountKeying(metadata)(plan.operations[i].table).ByRecord? {
        var j := NamedKeyIsAnEntrys(plan, i, entries, userId, metadata, resolve);
        assert Clear(entries[j], metadata);
      }
    }
  }

  /** Two manifests of a user whose plans have one digest ask for the same rows, and their plans delete the same from
      every database, when the ids frozen in either have one reading. */
  lemma AccountDigestFixesEffect(
    p: Plan, q: Plan, entries: seq<ManifestEntry>, others: seq<ManifestEntry>, userId: string, metadata: Metadata,
    resolve: string -> Option<Path>)
    requires PlansTheAccount(p, entries, userId, metadata, resolve)
      && PlansTheAccount(q, others, userId, metadata, resolve)
    requires UsersKeyed(metadata) && forall i :: 0 <= i < |entries| ==> Frozen(entries[i], metadata)
    requires forall i :: 0 <= i < |others| ==> Frozen(others[i], metadata)
    requires (forall i :: 0 <= i < |entries| ==> Clear(entries[i], metadata)) ||
      forall i :: 0 <= i < |others| ==> Clear(others[i], metadata)
    requires PlanDigest.DigestOf(p) == PlanDigest.DigestOf(q)
    ensures SameEffect(p.operations, q.operations) && PlanDigest.RunTheSame(p.operations, q.operations)
    ensures forall row ::
      Asked(entries, row) || IsUserRow(row, userId) <==> Asked(others, row) || IsUserRow(row, userId)
  {
    if forall i :: 0 <= i < |entries| ==> Clear(entries[i], metadata) {
      ClearEntriesClearPlan(p, entries, userId, metadata, resolve);
    } else {
      ClearEntriesClearPlan(q, others, userId, metadata, resolve);
    }
    PlanDigest.SameDigestSameEffect(p, q, AccountKeying(metadata));
    forall row
      ensures HitBy(p.operations, row) <==> HitBy(q.operations, row)
    {
      assert row in Deleted(p.operations, {row}) <==> row in Deleted(q.operations, {row});
    }
  }
}
