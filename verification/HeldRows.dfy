/** Rows that the schema's foreign keys hold in place: which erasures they always stop, and which rows go uncounted. */
module HeldRows {
  import opened Prelude
  import opened DeletionPlans
  import opened ForeignKeys
  import opened PlanExecution
  import opened AccountManifest
  import opened ErasureWorkflow
  import opened ErasureGuards
  import PlanDigest
  import TextOrder

  const OCR_CANDIDATE: Reference := Reference("document_ocr_candidates", "run_id", "document_ocr_runs", "id", false)

  const SESSION_MATERIAL: Reference :=
    Reference("learning_session_materials", "material_id", "user_documents", "id", false)

  const TAG_ASSIGNMENT: Reference :=
    Reference("document_tag_assignments", "document_id", "user_documents", "id", false)

  const RECOVERY_EVENT: Reference := Reference("recovery_events", "pseudonym_id", "users", "pseudonym_id", true)

  // ---------------------------------------------------------------- the document plan

  /** The tables a document's plan can name, those of its decision plan included. */
  const DOCUMENT_TABLES: set<string> := {
    "decision_trace_inputs", "decision_traces", "teaching_action_versions", "teaching_contexts",
    "learning_events", "learning_activities", "learning_plan_versions", "goal_knowledge_subgraph_versions",
    "goal_knowledge_mapping_versions", "goal_formation_inferences", "learning_goal_versions",
    "learner_state_versions", "canonical_mastery_estimate_versions", "learner_evidence", "document_chunks",
    "source_files", "project_materials", "library_search_projections", "document_tag_assignments",
    "document_collection_assignments", "document_ocr_runs", "document_duplicate_suggestions", "user_documents"
  }

  ghost predicate IsDocumentPlan(ops: seq<Operation>) {
    forall i :: 0 <= i < |ops| ==> ops[i].table in DOCUMENT_TABLES
  }

  /** The reference is part of the schema, and rows of its table are never dragged along. */
  ghost predicate Restricting(refs: References, link: Reference) {
    link in refs && !link.cascades && forall ref :: ref in refs && ref.table == link.table ==> !ref.cascades
  }

  /** A reference from a table the document plan does not name: whatever holds a planned row that way stops it. */
  lemma LinkStopsTheDocumentPlan(
    refs: References, link: Reference, ops: seq<Operation>, rows: Rows, child: Row, parent: Row)
    requires IsDocumentPlan(ops) && Restricting(refs, link) && link.table !in DOCUMENT_TABLES
    requires child in rows && parent in rows && HitBy(ops, parent) && Refers(link, child, parent)
    ensures !Runs(refs, ops, rows)
  {
    assert Restricts(refs, child, parent);
    UnnamedChildRefuses(refs, ops, rows, child, parent);
  }

  /** A document with an OCR candidate, or with a learning session it was opened in, can never be erased. */
  lemma OcrOrSessionStopsTheDocumentPlan(refs: References, ops: seq<Operation>, rows: Rows, child: Row, parent: Row)
    requires IsDocumentPlan(ops) && Restricting(refs, OCR_CANDIDATE) && Restricting(refs, SESSION_MATERIAL)
    requires child in rows && parent in rows && HitBy(ops, parent)
    requires Refers(OCR_CANDIDATE, child, parent) || Refers(SESSION_MATERIAL, child, parent)
    ensures !Runs(refs, ops, rows)
  {
    if Refers(OCR_CANDIDATE, child, parent) {
      LinkStopsTheDocumentPlan(refs, OCR_CANDIDATE, ops, rows, child, parent);
    } else {
      LinkStopsTheDocumentPlan(refs, SESSION_MATERIAL, ops, rows, child, parent);
    }
  }

  /** Such a database: one document, its OCR run and one candidate. */
  lemma OcrDocument() returns (ops: seq<Operation>, rows: Rows)
    ensures IsDocumentPlan(ops) && |Deleted(ops, rows)| == 2 && !Runs({OCR_CANDIDATE, SESSION_MATERIAL}, ops, rows)
  {
    var document := Row("user_documents", map["id" := Text("d")]);
    var run := Row("document_ocr_runs", map["id" := Text("r"), "document_id" := Text("d")]);
    var candidate := Row("document_ocr_candidates", map["id" := Text("c"), "run_id" := Text("r")]);
    rows := {run, document, candidate};
    ops := [Operation("SYS01", "document_ocr_runs", "id", [Text("r")], []),
            Operation("SYS01", "user_documents", "id", [Text("d")], [])];
    assert Refers(OCR_CANDIDATE, candidate, run) && document != run;
    TwoOfThree(ops, run, document, candidate);
    hide Hits, Deleted, Runs, Refers;
    OcrOrSessionStopsTheDocumentPlan({OCR_CANDIDATE, SESSION_MATERIAL}, ops, rows, candidate, run);
  }

  lemma TwoOfThree(ops: seq<Operation>, a: Row, b: Row, c: Row)
    requires |ops| == 2 && Hits(ops[0], a) && Hits(ops[1], b) && !Hits(ops[0], c) && !Hits(ops[1], c)
    ensures Deleted(ops, {a, b, c}) == {a, b} && HitBy(ops, a) && HitBy(ops, b)
  {
    hide Hits;
    assert !HitBy(ops, c);
  }

  /** So a document's erasure that has failed is never carried out while such a row is there, however often it is
      retried. */
  lemma HeldDocumentIsNeverErased(s: World, w: WorkflowId, builds: Builder, child: Row, parent: Row)
    requires Inv(s) && w in s.flows && s.flows[w].task.None? && HasStatus(s.flows[w], FailedRetryable)
    requires forall plan: Plan :: builds(w, s.shared.rows, plan) ==>
               IsDocumentPlan(plan.operations) && HitBy(plan.operations, parent)
    requires Restricting(s.shared.references, OCR_CANDIDATE) && Restricting(s.shared.references, SESSION_MATERIAL)
    requires child in s.shared.rows && parent in s.shared.rows
    requires Refers(OCR_CANDIDATE, child, parent) || Refers(SESSION_MATERIAL, child, parent)
    ensures !CanErase(s, w, builds)
  {
    RetryErasesAsBuiltIff(s, w, builds);
    forall plan: Plan | builds(w, s.shared.rows, plan)
      ensures !Runs(s.shared.references, plan.operations, s.shared.rows)
    {
      OcrOrSessionStopsTheDocumentPlan(s.shared.references, plan.operations, s.shared.rows, child, parent);
    }
  }

  // ---------------------------------------------------------------- the account plan

  lemma PrefixDeletes(ops: seq<Operation>, n: nat, rows: Rows)
    requires n <= |ops|
    ensures DeletedBefore(ops, n, rows) == Deleted(ops[..n], rows)
  {
    forall r | r in rows
      ensures HitBefore(ops, n, r) <==> HitBy(ops[..n], r)
    {
      if HitBefore(ops, n, r) { var i :| 0 <= i < n && Hits(ops[i], r); assert ops[..n][i] == ops[i]; }
      if HitBy(ops[..n], r) { var i :| 0 <= i < n && Hits(ops[..n][i], r); assert ops[..n][i] == ops[i]; }
    }
  }

  /** Among frozen entries, operations on single columns and row-by-row operations are on different tables. */
  lemma TableTellsTheForm(plan: Plan, metadata: Metadata, i: nat)
    requires PlanDigest.Keyed(plan, AccountKeying(metadata)) && i < |plan.operations|
    ensures var op := plan.operations[i];
      op.exactPredicates == [] <==> op.table in metadata && |metadata[op.table].primaryKey| == 1
  {
    var op := plan.operations[i];
    assert PlanDigest.KeyedBy(op, AccountKeying(metadata)(op.table));
  }

  /** The account plan moves every table with a key of several columns behind all the others.  So whenever a row of
      such a table holds another planned row in place, the deletion of the account is refused. */
  lemma CompositeRowStopsTheAccount(
    plan: Plan, entries: seq<ManifestEntry>, userId: string, metadata: Metadata, resolve: string -> Option<Path>,
    refs: References, link: Reference, rows: Rows, child: Row, parent: Row)
    requires PlansTheAccount(plan, entries, userId, metadata, resolve) && UsersKeyed(metadata)
    requires forall i :: 0 <= i < |entries| ==> Frozen(entries[i], metadata)
    requires Restricting(refs, link) && Refers(link, child, parent) && child in rows && parent in rows
    requires Asked(entries, parent) && parent.table != "users"
    requires link.table in metadata && |metadata[link.table].primaryKey| != 1
    requires link.target in metadata && |metadata[link.target].primaryKey| == 1
    ensures !Runs(refs, plan.operations, rows)
  {
    var ops := plan.operations;
    var columns: nat :| ColumnsFirst(ops, columns);
    assert PlanDigest.Keyed(plan, AccountKeying(metadata));
    ParentGoesWithTheColumns(plan, entries, userId, metadata, resolve, columns, parent);
    forall i | 0 <= i < columns
      ensures ops[..columns][i].table != child.table
    {
      TableTellsTheForm(plan, metadata, i);
    }
    UnnamedTableStays(refs, ops[..columns], rows, child);
    PrefixDeletes(ops, columns, rows);
    RunsIffChildrenGoFirst(refs, ops, rows);
    assert Restricts(refs, child, parent);
    assert parent in Cascade(refs, rows, DeletedBefore(ops, columns, rows));
    assert !NoneLeftBehind(refs, rows, Cascade(refs, rows, DeletedBefore(ops, columns, rows)));
  }

  lemma ParentGoesWithTheColumns(
    plan: Plan, entries: seq<ManifestEntry>, userId: string, metadata: Metadata, resolve: string -> Option<Path>,
    columns: nat, parent: Row)
    requires PlansTheAccount(plan, entries, userId, metadata, resolve) && ColumnsFirst(plan.operations, columns)
    requires PlanDigest.Keyed(plan, AccountKeying(metadata)) && Asked(entries, parent) && parent.table != "users"
    requires parent.table in metadata && |metadata[parent.table].primaryKey| == 1
    ensures HitBefore(plan.operations, columns, parent)
  {
    var ops := plan.operations;
    assert HitBy(ops, parent);
    var i :| 0 <= i < |ops| && Hits(ops[i], parent);
    TableTellsTheForm(plan, metadata, i);
    var earlier :| ops == earlier + [Finalize(userId)];
    assert ops[|ops| - 1] == Finalize(userId);
  }

  /** In particular an account with a tagged document. */
  lemma TaggedDocumentStopsTheAccount(
    plan: Plan, entries: seq<ManifestEntry>, userId: string, metadata: Metadata, resolve: string -> Option<Path>,
    refs: References, rows: Rows, document: string, tag: string)
    requires PlansTheAccount(plan, entries, userId, metadata, resolve) && UsersKeyed(metadata)
    requires forall i :: 0 <= i < |entries| ==> Frozen(entries[i], metadata)
    requires "user_documents" in metadata && |metadata["user_documents"].primaryKey| == 1
    requires "document_tag_assignments" in metadata && |metadata["document_tag_assignments"].primaryKey| == 2
    requires Restricting(refs, TAG_ASSIGNMENT)
    requires Row("user_documents", map["id" := Text(document)]) in rows
    requires Asked(entries, Row("user_documents", map["id" := Text(document)]))
    requires Row("document_tag_assignments", map["document_id" := Text(document), "tag_id" := Text(tag)]) in rows
    ensures !Runs(refs, plan.operations, rows)
  {
    var parent := Row("user_documents", map["id" := Text(document)]);
    var child := Row("document_tag_assignments", map["document_id" := Text(document), "tag_id" := Text(tag)]);
    assert Refers(TAG_ASSIGNMENT, child, parent);
    CompositeRowStopsTheAccount(
      plan, entries, userId, metadata, resolve, refs, TAG_ASSIGNMENT, rows, child, parent);
  }

  const TAG_COLUMNS: seq<PlanDigest.KeyColumn> :=
    [PlanDigest.KeyColumn("document_id", true), PlanDigest.KeyColumn("tag_id", true)]

  const ID_COLUMN: seq<PlanDigest.KeyColumn> := [PlanDigest.KeyColumn("id", true)]

  const TAG_KEY: Key := map["document_id" := Text("d"), "tag_id" := Text("t")]

  const DOCUMENT_KEY: Key := map["id" := Text("d")]

  const THREE_TABLES: Metadata := map[
    "users" := Table(ID_COLUMN, {"id"}), "user_documents" := Table(ID_COLUMN, {"id"}),
    "document_tag_assignments" := Table(TAG_COLUMNS, {"document_id", "tag_id"})]

  lemma KeysFit()
    ensures PlanDigest.FitsColumns(TAG_KEY, TAG_COLUMNS) && PlanDigest.FitsColumns(DOCUMENT_KEY, ID_COLUMN)
  {
    assert PlanDigest.NamesOf(TAG_COLUMNS)[0] == "document_id" && PlanDigest.NamesOf(TAG_COLUMNS)[1] == "tag_id";
    assert PlanDigest.NamesOf(ID_COLUMN)[0] == "id";
  }

  /** Such an account: one document with one tag, and the plan built from its two entries. */
  lemma TaggedDocument(userId: string, resolve: string -> Option<Path>)
    returns (plan: Plan, entries: seq<ManifestEntry>, rows: Rows)
    ensures PlansTheAccount(plan, entries, userId, THREE_TABLES, resolve)
    ensures |Deleted(plan.operations, rows)| == |rows| == 2 && !Runs({TAG_ASSIGNMENT}, plan.operations, rows)
  {
    hide Runs, PlansTheAccount, Satisfies, PlanDigest.RecordIdOf, PlanDigest.FitsColumns;
    var document, assignment := Row("user_documents", DOCUMENT_KEY), Row("document_tag_assignments", TAG_KEY);
    plan, entries := PlanOfTwo(userId, resolve, document, assignment);
    rows := {document, assignment};
    AskedIsDeleted(plan, entries, userId, resolve, rows);
    assert document != assignment;
    TaggedDocumentStopsTheAccount(plan, entries, userId, THREE_TABLES, resolve, {TAG_ASSIGNMENT}, rows, "d", "t");
  }

  lemma AskedIsDeleted(plan: Plan, entries: seq<ManifestEntry>, userId: string, resolve: string -> Option<Path>,
                       rows: Rows)
    requires PlansTheAccount(plan, entries, userId, THREE_TABLES, resolve)
    requires forall r :: r in rows ==> Asked(entries, r)
    ensures Deleted(plan.operations, rows) == rows
  {
    forall r | r in rows
      ensures HitBy(plan.operations, r)
    {
      assert Asked(entries, r);
    }
  }

  /** The plan of two frozen entries, a tag assignment and its document. */
  lemma PlanOfTwo(userId: string, resolve: string -> Option<Path>, document: Row, assignment: Row)
    returns (plan: Plan, entries: seq<ManifestEntry>)
    requires document == Row("user_documents", DOCUMENT_KEY)
    requires assignment == Row("document_tag_assignments", TAG_KEY)
    ensures PlansTheAccount(plan, entries, userId, THREE_TABLES, resolve)
    ensures forall i :: 0 <= i < |entries| ==> Frozen(entries[i], THREE_TABLES)
    ensures Asked(entries, document) && Asked(entries, assignment)
  {
    KeysFit();
    var tagId, fileId := PlanDigest.RecordIdOf(TAG_COLUMNS, TAG_KEY), PlanDigest.RecordIdOf(ID_COLUMN, DOCUMENT_KEY);
    var tag := ManifestEntry("SYS01", "document_tag_assignments", tagId, TAG_KEY, None);
    var file := ManifestEntry("SYS01", "user_documents", fileId, DOCUMENT_KEY, None);
    entries := [tag, file];
    assert EntryAsks(entries[0], assignment) && EntryAsks(entries[1], document);
    assert Frozen(tag, THREE_TABLES) && Frozen(file, THREE_TABLES);
    assert InSchema(tag, THREE_TABLES);
    hide Frozen, PlanDigest.RecordIdOf, PlanDigest.FitsColumns, PlansTheAccount, Asked, InSchema;
    plan := PlanOfEntries(entries, userId, THREE_TABLES, "id", Text("d"), resolve);
  }

  /** A row-by-row entry and one of a single column. */
  lemma PlanOfEntries(entries: seq<ManifestEntry>, userId: string, metadata: Metadata, name: string, v: Value,
                      resolve: string -> Option<Path>) returns (plan: Plan)
    requires |entries| == 2 && entries[0].filePath.None? && entries[1].filePath.None?
    requires entries[0].tableName != LOCAL_FILES && |entries[0].primaryKey| != 1 && InSchema(entries[0], metadata)
    requires entries[1].tableName != LOCAL_FILES && entries[1].tableName in metadata
    requires entries[1].primaryKey == map[name := v]
    ensures PlansTheAccount(plan, entries, userId, metadata, resolve)
  {
    var e := entries[0];
    var first := metadata[e.tableName].primaryKey[0].name;
    hide *;
    var row := Operation(e.owner, e.tableName, first, [Text(e.recordId)], [e.primaryKey]);
    var column := Column(entries[1].owner, entries[1].tableName, name);
    var g := GroupTwo(entries, metadata, row, column, v, resolve);
    var ops := [AsOperation(column, [] + [v])];
    OneColumn(g, ops, column, v);
    plan := Plan(ops + g.composite + [Finalize(userId)], []);
    NoFiles(entries, resolve);
    PlanIsTheAccount(entries, g, ops, {}, [], userId, metadata, resolve);
  }

  lemma NoFiles(entries: seq<ManifestEntry>, resolve: string -> Option<Path>)
    requires |entries| == 2 && entries[0].filePath.None? && entries[1].filePath.None?
    ensures forall f :: !AccountManifest.Names(entries, resolve, Some(f))
    ensures Elements<Path>([]) == {} && TextOrder.Ascending([])
  {}

  lemma GroupTwo(entries: seq<ManifestEntry>, metadata: Metadata, row: Operation, column: Column, v: Value,
                 resolve: string -> Option<Path>) returns (g: Grouping)
    requires |entries| == 2
    requires entries[0].tableName == row.table != LOCAL_FILES && |entries[0].primaryKey| != 1
    requires InSchema(entries[0], metadata)
    requires row.recordIds == [Text(entries[0].recordId)] && row.exactPredicates == [entries[0].primaryKey]
    requires entries[1].tableName == column.table != LOCAL_FILES && column.table in metadata
    requires entries[1].primaryKey == map[column.name := v]
    ensures g == Grouping([] + [column], Append(map[], column, v), [] + [row])
    ensures Done(entries, 2, g, metadata)
  {
    hide *;
    NothingDone(entries, metadata, resolve);
    CompositeDone(entries, 0, Grouping([], map[], []), row, metadata);
    SingleDone(entries, 1, Grouping([], map[], [] + [row]), column, v, metadata);
    g := Grouping([] + [column], Append(map[], column, v), [] + [row]);
  }

  lemma OneColumn(g: Grouping, ops: seq<Operation>, column: Column, v: Value)
    requires g.order == [] + [column] && g.gathered == Append(map[], column, v)
    requires ops == [AsOperation(column, [] + [v])]
    ensures AreOperations(ops, g)
  {}

  // ---------------------------------------------------------------- rows nobody counts

  /** A recovery event written after the manifest was frozen goes with the user row: two rows are lost, and the report
      counts one. */
  lemma CascadeIsNotCounted(userId: string, pseudonymId: string) returns (rows: Rows, event: Row)
    ensures var ops := [Finalize(userId)];
      && Runs({RECOVERY_EVENT}, ops, rows) && Erasure({RECOVERY_EVENT}, ops, rows) == rows && |rows| == 2
      && DraggedAlong({RECOVERY_EVENT}, ops, rows) == {event}
      && |Counted({RECOVERY_EVENT}, ops, 1, "IDENTITY_FINALIZE", rows)| == 1
  {
    var refs, ops := {RECOVERY_EVENT}, [Finalize(userId)];
    var user := Row("users", map["id" := Text(userId), "pseudonym_id" := Text(pseudonymId)]);
    event := Row("recovery_events", map["id" := Text("e"), "pseudonym_id" := Text(pseudonymId)]);
    rows := {user, event};
    assert Hits(ops[0], user) && !Hits(ops[0], event);
    assert Deleted(ops, rows) == {user};
    assert Refers(RECOVERY_EVENT, event, user) && Drags(refs, event, user);
    CascadeIsClosed(refs, rows, {user});
    assert Erasure(refs, ops, rows) == rows;
    RunsIffChildrenGoFirst(refs, ops, rows);
    assert forall child, parent :: !Restricts(refs, child, parent);
    assert HitIn(ops[0], rows - Gone(refs, ops, 0, rows)) == {user};
    assert Found(refs, ops, 0, rows) == {user};
    assert FoundBefore(refs, ops, 1, rows, user);
    assert AllFound(refs, ops, 1, rows) == {user};
    assert Counted(refs, ops, 1, "IDENTITY_FINALIZE", rows) == {user};
  }
}
