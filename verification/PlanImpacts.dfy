/** The per-owner estimate shown in the erasure preview, and how it bounds what execution later reports. */
module PlanImpacts {
  import opened Prelude
  import opened Tallies
  import opened DeletionPlans
  import PlanExecution
  import ForeignKeys
  import PlanMerging

  /** Ids the first n operations announce, per owner. */
  function Announced(ops: seq<Operation>, n: nat): Tally
    requires n <= |ops|
  {
    if n == 0 then [] else Bump(Announced(ops, n - 1), ops[n - 1].owner, |ops[n - 1].recordIds|)
  }

  /** Announced ids per owner; files count under FILE_STORAGE, overwriting an owner of that name; an empty plan
      still has one impact. */
  ghost predicate AreImpacts(plan: Plan, grouped: Tally) {
    && grouped != []
    && (forall owner :: CountOf(grouped, owner) ==
          if plan.files != [] && owner == "FILE_STORAGE" then |plan.files|
          else CountOf(Announced(plan.operations, |plan.operations|), owner))
    && (plan.files == [] && plan.operations == [] ==> grouped == [Entry("DATA_CONTROL", 0)])
  }

  method Impacts(plan: Plan) returns (grouped: Tally)
    ensures AreImpacts(plan, grouped)
  {
    grouped := [];
    for n := 0 to |plan.operations|
      invariant grouped == Announced(plan.operations, n)
      invariant n > 0 ==> grouped != []
    {
      grouped := Bump(grouped, plan.operations[n].owner, |plan.operations[n].recordIds|);
    }
    if plan.files != [] {
      SetCounts(grouped, "FILE_STORAGE", |plan.files|);
      grouped := Set(grouped, "FILE_STORAGE", |plan.files|);
    }
    if grouped == [] {
      grouped := [Entry("DATA_CONTROL", 0)];
    }
  }

  // ---------------------------------------------------------------- what the announcement is worth

  /** The table holds at most one row for each key the operation names. */
  ghost predicate KeysIdentifyRows(op: Operation, rows: Rows) {
    forall key, r, s :: key in Targets(op) && r in rows && s in rows && BothHeld(op.table, key, r, s) ==> r == s
  }

  predicate BothHeld(table: string, key: Key, r: Row, s: Row) {
    r.table == s.table == table && Satisfies(r, key) && Satisfies(s, key)
  }

  /** Keys identify rows, and no more predicates are named than ids are listed. */
  ghost predicate Identifying(op: Operation, rows: Rows) {
    KeysIdentifyRows(op, rows) && |op.exactPredicates| <= |op.recordIds|
  }

  lemma {:induction false} OnePerKey<K, R>(keys: set<K>, hit: set<R>, fits: (R, K) -> bool)
    requires forall r :: r in hit ==> exists k :: k in keys && fits(r, k)
    requires forall k, r, s :: k in keys && r in hit && s in hit && fits(r, k) && fits(s, k) ==> r == s
    ensures |hit| <= |keys|
    decreases |keys|
  {
    if keys == {} {
      assert hit == {};
    } else {
      var k :| k in keys;
      if r :| r in hit && fits(r, k) {
        forall s | s in hit - {r}
          ensures exists j :: j in keys - {k} && fits(s, j)
        {
          var j :| j in keys && fits(s, j);
        }
        OnePerKey(keys - {k}, hit - {r}, fits);
      } else {
        forall s | s in hit
          ensures exists j :: j in keys - {k} && fits(s, j)
        {
          var j :| j in keys && fits(s, j);
        }
        OnePerKey(keys - {k}, hit, fits);
      }
    }
  }

  lemma TargetsAtMostIds(op: Operation)
    requires op.exactPredicates == []
    ensures |Targets(op)| <= |op.recordIds|
  {
    IdsAsKeys(op.primaryKey, op.recordIds);
  }

  lemma IdsAsKeys(column: string, ids: seq<Value>)
    ensures |set id | id in ids :: map[column := id]| <= |ids|
  {
    if ids != [] {
      IdsAsKeys(column, ids[1..]);
      var all := set id | id in ids :: map[column := id];
      var rest := set id | id in ids[1..] :: map[column := id];
      assert ids == [ids[0]] + ids[1..];
      assert all == rest + {map[column := ids[0]]};
    }
  }

  lemma OperationHitsAtMostItsIds(op: Operation, rows: Rows)
    requires Identifying(op, rows)
    ensures |set r | r in rows && Hits(op, r)| <= |op.recordIds|
  {
    var hit := set r | r in rows && Hits(op, r);
    forall r | r in hit ensures exists key :: key in Targets(op) && Satisfies(r, key) {
      HitsIsTargets(op, r);
    }
    forall k, r, s | k in Targets(op) && r in hit && s in hit && Satisfies(r, k) && Satisfies(s, k)
      ensures r == s
    {
      assert BothHeld(op.table, k, r, s);
    }
    OnePerKey(Targets(op), hit, Satisfies);
    if op.exactPredicates == [] {
      TargetsAtMostIds(op);
    } else {
      PlanMerging.ElementsAtMostLength(op.exactPredicates);
    }
  }

  lemma RemovesAtMostItsIds(ops: seq<Operation>, n: nat, rows: Rows)
    requires n < |ops| && Identifying(ops[n], rows)
    ensures |Removed(ops, n, rows)| <= |ops[n].recordIds|
  {
    OperationHitsAtMostItsIds(ops[n], rows);
    SubsetSize(Removed(ops, n, rows), set r | r in rows && Hits(ops[n], r));
  }

  ghost predicate AllIdentifying(ops: seq<Operation>, n: nat, rows: Rows)
    requires n <= |ops|
  {
    forall i :: 0 <= i < n ==> Identifying(ops[i], rows)
  }

  lemma OneMoreAnnounced(ops: seq<Operation>, n: nat, rows: Rows, owner: string)
    requires n < |ops| && Identifying(ops[n], rows)
    ensures |Attributed(ops, n + 1, owner, rows)|
         <= |Attributed(ops, n, owner, rows)| + if owner == ops[n].owner then |ops[n].recordIds| else 0
    ensures |DeletedBefore(ops, n + 1, rows)| <= |DeletedBefore(ops, n, rows)| + |ops[n].recordIds|
  {
    hide Attributed, DeletedBefore, Identifying;
    OneOperation(ops, n, rows, owner);
    RemovesAtMostItsIds(ops, n, rows);
    hide Removed;
  }

  lemma NothingYet(ops: seq<Operation>, rows: Rows, owner: string)
    ensures Attributed(ops, 0, owner, rows) == {} && DeletedBefore(ops, 0, rows) == {}
  {}

  /** Where keys identify rows, no owner loses more rows than announced, whatever the overlaps. */
  lemma {:induction false} PreviewNeverUnderstates(ops: seq<Operation>, n: nat, rows: Rows, owner: string)
    requires n <= |ops| && AllIdentifying(ops, n, rows)
    ensures |Attributed(ops, n, owner, rows)| <= CountOf(Announced(ops, n), owner)
    ensures |DeletedBefore(ops, n, rows)| <= Total(Announced(ops, n))
  {
    hide Attributed, DeletedBefore, Identifying;
    NothingYet(ops, rows, owner);
    if n > 0 {
      PreviewNeverUnderstates(ops, n - 1, rows, owner);
      OneMoreAnnounced(ops, n - 1, rows, owner);
      BumpAdds(Announced(ops, n - 1), ops[n - 1].owner, |ops[n - 1].recordIds|);
    }
  }

  /** Nor is any owner reported more than was announced, whatever cascades take along beforehand. */
  lemma ReportNeverExceedsThePreview(refs: ForeignKeys.References, ops: seq<Operation>, rows: Rows, owner: string)
    requires AllIdentifying(ops, |ops|, rows)
    ensures |PlanExecution.Counted(refs, ops, |ops|, owner, rows)| <= CountOf(Announced(ops, |ops|), owner)
  {
    hide AllIdentifying, Attributed, PlanExecution.Counted;
    PlanExecution.CountedIsAttributed(refs, ops, |ops|, owner, rows);
    SubsetSize(PlanExecution.Counted(refs, ops, |ops|, owner, rows), Attributed(ops, |ops|, owner, rows));
    PreviewNeverUnderstates(ops, |ops|, rows, owner);
  }

  lemma SubsetSize(a: Rows, b: Rows)
    requires a <= b
    ensures |a| <= |b|
  {
    assert b == a + (b - a);
  }

  // ---------------------------------------------------------------- tables and their primary keys

  /** The primary-key columns of each table. */
  type Schema = string -> set<string>

  /** Every row has its table's key columns, and no two rows of a table agree in all of them. */
  ghost predicate Respects(rows: Rows, schema: Schema) {
    && (forall r :: r in rows ==> schema(r.table) <= r.columns.Keys)
    && forall r, s :: r in rows && s in rows && SameKey(r, s, schema) ==> r == s
  }

  ghost predicate SameKey(r: Row, s: Row, schema: Schema) {
    r.table == s.table
    && forall c :: c in schema(r.table) ==> c in r.columns && c in s.columns && r.columns[c] == s.columns[c]
  }

  /** Every key the operations name holds the whole primary key of its table. */
  ghost predicate KeysAreWhole(ops: seq<Operation>, schema: Schema) {
    forall i :: 0 <= i < |ops| ==> NamesWholeKeys(ops[i], schema)
  }

  ghost predicate NamesWholeKeys(op: Operation, schema: Schema) {
    forall key :: key in Targets(op) ==> schema(op.table) <= key.Keys
  }

  /** No plan the code builds names more predicates than it lists ids. */
  ghost predicate IdForEachPredicate(ops: seq<Operation>) {
    forall i :: 0 <= i < |ops| ==> |ops[i].exactPredicates| <= |ops[i].recordIds|
  }

  ghost predicate Understates(ops: seq<Operation>, rows: Rows) {
    exists owner :: |Attributed(ops, |ops|, owner, rows)| > CountOf(Announced(ops, |ops|), owner)
  }

  lemma WholeKeysIdentify(op: Operation, rows: Rows, schema: Schema)
    requires Respects(rows, schema) && NamesWholeKeys(op, schema)
    ensures KeysIdentifyRows(op, rows)
  {
    forall key, r, s | key in Targets(op) && r in rows && s in rows && BothHeld(op.table, key, r, s)
      ensures r == s
    {
      assert SameKey(r, s, schema);
    }
  }

  /** Row j of a family that shares a key and differs in the primary-key columns the key leaves open. */
  function Sibling(table: string, key: Key, open: set<string>, j: nat): Row {
    Row(table, key + map c | c in open :: Number(j))
  }

  lemma SiblingsDiffer(table: string, key: Key, open: set<string>, c: string, i: nat, j: nat)
    requires c in open && open !! key.Keys
    ensures Sibling(table, key, open, i).columns[c] == Number(i) && Satisfies(Sibling(table, key, open, i), key)
    ensures Sibling(table, key, open, i) == Sibling(table, key, open, j) ==> i == j
  {
    assert Sibling(table, key, open, j).columns[c] == Number(j);
  }

  function Siblings(table: string, key: Key, open: set<string>, n: nat): Rows {
    if n == 0 then {} else Siblings(table, key, open, n - 1) + {Sibling(table, key, open, n - 1)}
  }

  lemma {:induction false} SiblingsCount(table: string, key: Key, open: set<string>, c: string, n: nat)
    requires c in open && open !! key.Keys
    ensures |Siblings(table, key, open, n)| == n
    ensures forall r :: r in Siblings(table, key, open, n) ==>
      exists i :: 0 <= i < n && r == Sibling(table, key, open, i)
  {
    hide Sibling;
    if n > 0 {
      SiblingsCount(table, key, open, c, n - 1);
      if Sibling(table, key, open, n - 1) in Siblings(table, key, open, n - 1) {
        var i :| 0 <= i < n - 1 && Sibling(table, key, open, n - 1) == Sibling(table, key, open, i);
        SiblingsDiffer(table, key, open, c, i, n - 1);
      }
    }
  }

  lemma SiblingsAreDifferentRows(table: string, key: Key, schema: Schema, n: nat) returns (rows: Rows)
    requires !(schema(table) <= key.Keys)
    ensures |rows| == n && Respects(rows, schema)
    ensures forall r :: r in rows ==> r.table == table && Satisfies(r, key)
  {
    var open := schema(table) - key.Keys;
    var c :| c in schema(table) && c !in key.Keys;
    rows := Siblings(table, key, open, n);
    SiblingsCount(table, key, open, c, n);
    forall r | r in rows
      ensures r.table == table && Satisfies(r, key) && schema(r.table) <= r.columns.Keys
    {
      var i :| 0 <= i < n && r == Sibling(table, key, open, i);
      SiblingsDiffer(table, key, open, c, i, i);
    }
    forall r, s | r in rows && s in rows && SameKey(r, s, schema)
      ensures r == s
    {
      var i :| 0 <= i < n && r == Sibling(table, key, open, i);
      var j :| 0 <= j < n && s == Sibling(table, key, open, j);
      SiblingsDiffer(table, key, open, c, i, j);
      SiblingsDiffer(table, key, open, c, j, i);
    }
  }

  /** A key that leaves a primary-key column open admits more rows than any announcement. */
  lemma OpenKeyUnderstates(ops: seq<Operation>, i: nat, key: Key, schema: Schema) returns (rows: Rows)
    requires IdForEachPredicate(ops) && i < |ops| && key in Targets(ops[i]) && !(schema(ops[i].table) <= key.Keys)
    requires KeysAreWhole(ops[..i], schema)
    ensures Respects(rows, schema) && Understates(ops, rows)
  {
    var owner, announced := ops[i].owner, CountOf(Announced(ops, |ops|), ops[i].owner);
    var n := Total(Announced(ops, i)) + announced + 1;
    rows := SiblingsAreDifferentRows(ops[i].table, key, schema, n);
    forall j | 0 <= j < i
      ensures Identifying(ops[j], rows)
    {
      assert ops[..i][j] == ops[j];
      WholeKeysIdentify(ops[j], rows, schema);
    }
    PreviewNeverUnderstates(ops, i, rows, owner);
    forall r | r in rows
      ensures Hits(ops[i], r)
    {
      HitsIsTargets(ops[i], r);
    }
    assert rows == DeletedBefore(ops, i, rows) + Removed(ops, i, rows);
    assert |rows| <= |DeletedBefore(ops, i, rows)| + |Removed(ops, i, rows)|;
    forall r | r in Removed(ops, i, rows)
      ensures r in Attributed(ops, |ops|, owner, rows)
    {
      assert FirstHit(ops, i, owner, r);
    }
    SubsetSize(Removed(ops, i, rows), Attributed(ops, |ops|, owner, rows));
  }

  /** The preview understates no database that respects its primary keys exactly when every key the plan names is a
      whole primary key. */
  lemma PreviewNeverUnderstatesIff(ops: seq<Operation>, schema: Schema)
    requires IdForEachPredicate(ops)
    ensures (forall rows: Rows :: Respects(rows, schema) ==> !Understates(ops, rows)) <==> KeysAreWhole(ops, schema)
  {
    if KeysAreWhole(ops, schema) {
      forall rows: Rows | Respects(rows, schema)
        ensures !Understates(ops, rows)
      {
        forall i | 0 <= i < |ops|
          ensures Identifying(ops[i], rows)
        {
          WholeKeysIdentify(ops[i], rows, schema);
        }
        forall owner { PreviewNeverUnderstates(ops, |ops|, rows, owner); }
      }
    } else {
      var i := FirstOpenKey(ops, schema);
      var key :| key in Targets(ops[i]) && !(schema(ops[i].table) <= key.Keys);
      var rows := OpenKeyUnderstates(ops, i, key, schema);
    }
  }

  lemma {:induction false} FirstOpenKey(ops: seq<Operation>, schema: Schema) returns (i: nat)
    requires !KeysAreWhole(ops, schema)
    ensures i < |ops| && !NamesWholeKeys(ops[i], schema) && KeysAreWhole(ops[..i], schema)
    decreases |ops|
  {
    i :| i < |ops| && !NamesWholeKeys(ops[i], schema);
    if !KeysAreWhole(ops[..i], schema) {
      var j := FirstOpenKey(ops[..i], schema);
      assert ops[..i][..j] == ops[..j];
      i := j;
    }
  }

  // ---------------------------------------------------------------- a document's tags

  function TagRow(document: string, tag: string): Row {
    Row("document_tag_assignments", map["document_id" := Text(document), "tag_id" := Text(tag)])
  }

  /** The document planner selects one document id for each tag assignment it finds. */
  function TagOperation(document: string, found: nat): Operation {
    Operation("SYS01", "document_tag_assignments", "document_id", seq(found, _ => Text(document)), [])
  }

  function DocumentSchema(table: string): set<string> {
    if table == "document_tag_assignments" then {"document_id", "tag_id"} else {"id"}
  }

  function TagRows(document: string, tags: set<string>): Rows {
    set t | t in tags :: TagRow(document, t)
  }

  lemma {:induction false} TagRowsCount(document: string, tags: set<string>)
    ensures |TagRows(document, tags)| == |tags| && Respects(TagRows(document, tags), DocumentSchema)
    decreases |tags|
  {
    if tags == {} {
      assert TagRows(document, tags) == {};
    } else {
      var t :| t in tags;
      TagRowsCount(document, tags - {t});
      assert TagRow(document, t).columns["tag_id"] == Text(t);
      forall u | u in tags - {t}
        ensures TagRow(document, u) != TagRow(document, t)
      {
        assert TagRow(document, u).columns["tag_id"] == Text(u);
      }
      assert TagRows(document, tags) == TagRows(document, tags - {t}) + {TagRow(document, t)};
    }
    forall r, s | r in TagRows(document, tags) && s in TagRows(document, tags) && SameKey(r, s, DocumentSchema)
      ensures r == s
    {
      assert "tag_id" in DocumentSchema(r.table);
      assert r.columns["tag_id"] == s.columns["tag_id"];
    }
  }

  /** However many tags a document has, the merged plan lists its id once.  So one row is announced where all of them
      go, and a tag added after the preview changes neither plan nor digest and goes too. */
  lemma TagsAreAnnouncedAsOne(document: string, tags: set<string>)
    requires tags != {}
    ensures var rows, merged := TagRows(document, tags), TagOperation(document, 1);
      && PlanMerging.IsMerge([TagOperation(document, |tags|)], [merged])
      && Respects(rows, DocumentSchema) && CountOf(Announced([merged], 1), "SYS01") == 1
      && Deleted([merged], rows) == rows && |Attributed([merged], 1, "SYS01", rows)| == |tags|
  {
    var rows, merged := TagRows(document, tags), TagOperation(document, 1);
    TagRowsCount(document, tags);
    MergedTagOperation(document, |tags|);
    forall r | r in rows
      ensures FirstHit([merged], 0, "SYS01", r) && Hits([merged][0], r)
    {
      assert merged.recordIds[0] == Text(document) && r.columns["document_id"] == Text(document);
    }
    assert Attributed([merged], 1, "SYS01", rows) == rows == Deleted([merged], rows);
    assert Announced([merged], 0) == [];
    assert Announced([merged], 1) == Bump([], "SYS01", 1);
  }

  lemma MergedTagOperation(document: string, found: nat)
    requires found > 0
    ensures PlanMerging.IsMerge([TagOperation(document, found)], [TagOperation(document, 1)])
  {
    var a, m := TagOperation(document, found), TagOperation(document, 1);
    PlanMerging.OneOperationOfTheGroup(a);
    assert a.recordIds[0] in a.recordIds && m.recordIds == [Text(document)];
    assert Elements(a.recordIds) == {Text(document)} == Elements(m.recordIds);
    assert PlanMerging.KeyColumnOf([a], PlanMerging.GroupOf(m)) == "document_id";
    FirstOccurrencesSnoc([], PlanMerging.GroupOf(a));
    assert PlanMerging.Groups([a]) == [] + [PlanMerging.GroupOf(a)] == PlanMerging.Groups([m]);
  }
}
