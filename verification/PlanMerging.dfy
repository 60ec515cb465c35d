/** Merging several deletion plans into one, and when the merge deletes what the plans in turn would. */
module PlanMerging {
  import opened Prelude
  import opened DeletionPlans
  import opened ForeignKeys
  import TextOrder

  /** Merged operations are kept per owner and table. */
  type Group = (string, string)

  function GroupOf(op: Operation): Group { (op.owner, op.table) }

  function Groups(ops: seq<Operation>): seq<Group> {
    seq(|ops|, i requires 0 <= i < |ops| => GroupOf(ops[i]))
  }

  function AllOperations(plans: seq<Plan>): seq<Operation> {
    if plans == [] then [] else AllOperations(plans[..|plans| - 1]) + plans[|plans| - 1].operations
  }

  function AllFiles(plans: seq<Plan>): set<Path> {
    set i, f | 0 <= i < |plans| && f in plans[i].files :: f
  }

  // ---------------------------------------------------------------- what a merge is

  ghost function IdsOf(ops: seq<Operation>, g: Group): set<Value> {
    if ops == [] then {}
    else
      var op := ops[|ops| - 1];
      IdsOf(ops[..|ops| - 1], g) + if GroupOf(op) == g then Elements(op.recordIds) else {}
  }

  ghost function PredicatesOf(ops: seq<Operation>, g: Group): seq<Key> {
    if ops == [] then []
    else
      var op := ops[|ops| - 1];
      PredicatesOf(ops[..|ops| - 1], g) + if GroupOf(op) == g then op.exactPredicates else []
  }

  /** Key column of the group's last operation. */
  ghost function KeyColumnOf(ops: seq<Operation>, g: Group): string {
    if ops == [] then ""
    else if GroupOf(ops[|ops| - 1]) == g then ops[|ops| - 1].primaryKey
    else KeyColumnOf(ops[..|ops| - 1], g)
  }

  /** m is what merging gives group g: every id of the group once, its predicates in order, its last key column. */
  ghost predicate MergesGroup(ops: seq<Operation>, g: Group, m: Operation) {
    && GroupOf(m) == g && Distinct(m.recordIds)
    && Elements(m.recordIds) == IdsOf(ops, g)
    && m.exactPredicates == PredicatesOf(ops, g)
    && m.primaryKey == KeyColumnOf(ops, g)
  }

  ghost predicate IsMerge(ops: seq<Operation>, merged: seq<Operation>) {
    && Groups(merged) == FirstOccurrences(Groups(ops))
    && forall n :: 0 <= n < |merged| ==> MergesGroup(ops, GroupOf(merged[n]), merged[n])
  }

  /** State of the merge loop: a dictionary in insertion order. */
  ghost predicate MergedSoFar(seen: seq<Operation>, order: seq<Group>, table: map<Group, Operation>) {
    && order == FirstOccurrences(Groups(seen))
    && table.Keys == Elements(order)
    && forall g :: g in table ==> MergesGroup(seen, g, table[g])
  }

  lemma {:induction false} UnseenGroupIsEmpty(ops: seq<Operation>, g: Group)
    requires g !in Groups(ops)
    ensures IdsOf(ops, g) == {} && PredicatesOf(ops, g) == []
  {
    if ops != [] {
      assert Groups(ops)[|ops| - 1] != g;
      var init := ops[..|ops| - 1];
      assert Groups(ops) == Groups(init) + [GroupOf(ops[|ops| - 1])];
      UnseenGroupIsEmpty(init, g);
    }
  }

  lemma OthersUnchanged(seen: seq<Operation>, op: Operation, g: Group, m: Operation)
    requires MergesGroup(seen, g, m) && GroupOf(op) != g
    ensures MergesGroup(seen + [op], g, m)
  {
    assert (seen + [op])[..|seen|] == seen;
  }

  lemma GatheredSoFar(seen: seq<Operation>, order: seq<Group>, table: map<Group, Operation>, g: Group)
    requires MergedSoFar(seen, order, table)
    ensures g in table ==>
      Elements(table[g].recordIds) == IdsOf(seen, g) && table[g].exactPredicates == PredicatesOf(seen, g)
    ensures g !in table ==> IdsOf(seen, g) == {} && PredicatesOf(seen, g) == []
  {
    FirstOccurrencesKeepsElements(Groups(seen));
    if g !in table { UnseenGroupIsEmpty(seen, g); }
  }

  /** One loop turn: the operation's group gains its ids and predicates and takes its key column. */
  method MergeOne(ghost seen: seq<Operation>, order: seq<Group>, table: map<Group, Operation>, op: Operation)
    returns (order': seq<Group>, table': map<Group, Operation>)
    requires MergedSoFar(seen, order, table)
    ensures MergedSoFar(seen + [op], order', table')
  {
    var g := GroupOf(op);
    hide MergesGroup, MergedSoFar;
    GatheredSoFar(seen, order, table, g);
    var predicates := op.exactPredicates;
    var ids := set v | v in op.recordIds;
    if g in table {
      ids := ids + set v | v in table[g].recordIds;
      predicates := table[g].exactPredicates + predicates;
    }
    var recordIds := Enumerate(ids);
    EnumerationIsDistinct(recordIds, ids);
    var m := Operation(op.owner, op.table, op.primaryKey, recordIds, predicates);
    assert ids == IdsOf(seen, g) + Elements(op.recordIds);
    order' := if g in table then order else order + [g];
    table' := table[g := m];

    NewestGroup(seen, op, m);
    TableGrows(seen, op, order, table, m);
  }

  lemma NewestGroup(seen: seq<Operation>, op: Operation, m: Operation)
    requires GroupOf(m) == GroupOf(op) && Distinct(m.recordIds) && m.primaryKey == op.primaryKey
    requires Elements(m.recordIds) == IdsOf(seen, GroupOf(op)) + Elements(op.recordIds)
    requires m.exactPredicates == PredicatesOf(seen, GroupOf(op)) + op.exactPredicates
    ensures MergesGroup(seen + [op], GroupOf(op), m)
  {
    assert (seen + [op])[..|seen|] == seen;
  }

  lemma TableGrows(seen: seq<Operation>, op: Operation, order: seq<Group>, table: map<Group, Operation>, m: Operation)
    requires MergedSoFar(seen, order, table) && MergesGroup(seen + [op], GroupOf(op), m)
    ensures MergedSoFar(seen + [op], if GroupOf(op) in table then order else order + [GroupOf(op)],
      table[GroupOf(op) := m])
  {
    hide MergesGroup, FirstOccurrences;
    var g := GroupOf(op);
    assert Groups(seen + [op]) == Groups(seen) + [g];
    FirstOccurrencesSnoc(Groups(seen), g);
    forall h | h in table && h != g
      ensures MergesGroup(seen + [op], h, table[h])
    {
      OthersUnchanged(seen, op, h, table[h]);
    }
  }

  method MergeAll(ghost before: seq<Operation>, order: seq<Group>, table: map<Group, Operation>,
      operations: seq<Operation>)
    returns (order': seq<Group>, table': map<Group, Operation>)
    requires MergedSoFar(before, order, table)
    ensures MergedSoFar(before + operations, order', table')
  {
    order', table' := order, table;
    assert before + operations[..0] == before;
    for n := 0 to |operations|
      invariant MergedSoFar(before + operations[..n], order', table')
    {
      ghost var seen := before + operations[..n];
      assert before + operations[..n + 1] == seen + [operations[n]];
      order', table' := MergeOne(seen, order', table', operations[n]);
    }
    assert operations[..|operations|] == operations;
  }

  /** Merges plans group by group, in the order groups first appear; ids are a deduplicated union. */
  method MergePlans(plans: seq<Plan>) returns (merged: Plan)
    ensures IsMerge(AllOperations(plans), merged.operations)
    ensures Elements(merged.files) == AllFiles(plans) && TextOrder.Ascending(merged.files)
      && |merged.files| == |AllFiles(plans)|
  {
    var order: seq<Group>, table: map<Group, Operation>, files: set<Path> := [], map[], {};
    for p := 0 to |plans|
      invariant MergedSoFar(AllOperations(plans[..p]), order, table)
      invariant files == AllFiles(plans[..p])
    {
      assert plans[..p + 1][..p] == plans[..p];
      files := files + set f | f in plans[p].files;
      order, table := MergeAll(AllOperations(plans[..p]), order, table, plans[p].operations);
    }
    assert plans[..|plans|] == plans;
    var operations := InOrder(AllOperations(plans), order, table);
    var sorted := SortedFiles(files);
    merged := Plan(operations, sorted);
  }

  /** Python's tuple(sorted(files)). */
  method SortedFiles(files: set<Path>) returns (sorted: seq<Path>)
    ensures Elements(sorted) == files && |sorted| == |files| && TextOrder.Ascending(sorted)
  {
    var paths := Enumerate(files);
    TextOrder.SortSorts(paths);
    SameElements(TextOrder.Sort(paths), paths);
    sorted := TextOrder.Sort(paths);
  }

  function InOrder(ghost seen: seq<Operation>, order: seq<Group>, table: map<Group, Operation>)
    : (merged: seq<Operation>)
    requires MergedSoFar(seen, order, table)
    ensures IsMerge(seen, merged)
  {
    var merged := seq(|order|, i requires 0 <= i < |order| && order[i] in table => table[order[i]]);
    assert forall i :: 0 <= i < |order| ==> GroupOf(merged[i]) == order[i];
    assert Groups(merged) == order;
    merged
  }

  lemma SameElements(s: seq<string>, t: seq<string>)
    requires multiset(s) == multiset(t)
    ensures Elements(s) == Elements(t) && |s| == |t|
  {
    assert forall x :: x in s <==> x in multiset(s);
    assert forall x :: x in t <==> x in multiset(t);
    assert |multiset(s)| == |s| && |multiset(t)| == |t|;
  }

  lemma {:induction false} EnumerationIsDistinct<T(!new)>(q: seq<T>, s: set<T>)
    requires Elements(q) == s && |q| == |s|
    ensures Distinct(q)
  {
    forall i, j | 0 <= i < j < |q|
      ensures q[i] != q[j]
    {
      if q[i] == q[j] {
        var shorter := q[..j] + q[j + 1..];
        assert forall x :: x in q ==> x in shorter by {
          forall k | 0 <= k < |q| ensures q[k] in shorter {
            if k < j { assert shorter[k] == q[k]; }
            else if k > j { assert shorter[k - 1] == q[k]; }
            else { assert shorter[i] == q[i]; }
          }
        }
        assert Elements(shorter) == s;
        ElementsAtMostLength(shorter);
      }
    }
  }

  lemma ElementsAtMostLength<T>(q: seq<T>)
    ensures |Elements(q)| <= |q|
  {
    if q != [] {
      ElementsAtMostLength(q[1..]);
      assert q == [q[0]] + q[1..];
      assert Elements(q) == {q[0]} + Elements(q[1..]);
    }
  }

  // ---------------------------------------------------------------- when merging keeps the effect

  ghost predicate InGroup(ops: seq<Operation>, i: int, g: Group) {
    0 <= i < |ops| && GroupOf(ops[i]) == g
  }

  lemma {:induction false} GroupContents(ops: seq<Operation>, g: Group)
    ensures forall v :: v in IdsOf(ops, g) <==> exists i :: InGroup(ops, i, g) && v in ops[i].recordIds
    ensures forall k :: k in PredicatesOf(ops, g) <==> exists i :: InGroup(ops, i, g) && k in ops[i].exactPredicates
    ensures g in Groups(ops) ==> exists i :: InGroup(ops, i, g) && KeyColumnOf(ops, g) == ops[i].primaryKey
  {
    if ops != [] {
      var init, last := ops[..|ops| - 1], |ops| - 1;
      GroupContents(init, g);
      assert Groups(ops) == Groups(init) + [GroupOf(ops[last])];
      assert forall i :: InGroup(ops, i, g) <==> InGroup(init, i, g) || (i == last && GroupOf(ops[last]) == g);
      assert forall i :: InGroup(init, i, g) ==> init[i] == ops[i];
      assert GroupOf(ops[last]) == g ==> InGroup(ops, last, g);
    }
  }

  /** Each owner addresses a table through one key column, as the planners do. */
  ghost predicate OneKeyColumnPerGroup(ops: seq<Operation>) {
    forall i, j :: 0 <= i < |ops| && 0 <= j < |ops| && GroupOf(ops[i]) == GroupOf(ops[j])
      ==> ops[i].primaryKey == ops[j].primaryKey
  }

  /** Operation i carries plain ids while another of its group carries predicates: the merged operation has
      predicates, and its id list is then not consulted. */
  ghost predicate IdsShadowed(ops: seq<Operation>, i: int) {
    0 <= i < |ops| && ops[i].exactPredicates == []
    && exists j :: InGroup(ops, j, GroupOf(ops[i])) && ops[j].exactPredicates != []
  }

  lemma MergedOperationOf(ops: seq<Operation>, merged: seq<Operation>, i: nat) returns (n: nat)
    requires IsMerge(ops, merged) && i < |ops|
    ensures n < |merged| && GroupOf(merged[n]) == GroupOf(ops[i]) && MergesGroup(ops, GroupOf(ops[i]), merged[n])
  {
    FirstOccurrencesKeepsElements(Groups(ops));
    assert Groups(ops)[i] in Groups(merged);
    n :| 0 <= n < |merged| && Groups(merged)[n] == GroupOf(ops[i]);
  }

  lemma {:induction false} NoPredicatesInGroup(ops: seq<Operation>, g: Group, i: nat)
    requires InGroup(ops, i, g) && PredicatesOf(ops, g) == []
    ensures ops[i].exactPredicates == []
  {
    var init := ops[..|ops| - 1];
    assert PredicatesOf(ops, g)
        == PredicatesOf(init, g) + if GroupOf(ops[|ops| - 1]) == g then ops[|ops| - 1].exactPredicates else [];
    if i < |ops| - 1 {
      assert InGroup(init, i, g) && init[i] == ops[i];
      NoPredicatesInGroup(init, g, i);
    }
  }

  lemma MergeNamesNothingNew(ops: seq<Operation>, merged: seq<Operation>)
    requires IsMerge(ops, merged) && OneKeyColumnPerGroup(ops)
    ensures Covers(ops, merged)
  {
    FirstOccurrencesKeepsElements(Groups(ops));
    forall n, key | 0 <= n < |merged| && key in Targets(merged[n])
      ensures HitBy(ops, Row(merged[n].table, key))
    {
      var m, g := merged[n], GroupOf(merged[n]);
      assert Groups(merged)[n] == g;
      GroupContents(ops, g);
      var i: int;
      if m.exactPredicates != [] {
        i :| InGroup(ops, i, g) && key in ops[i].exactPredicates;
      } else {
        var id :| id in m.recordIds && key == map[m.primaryKey := id];
        assert id in Elements(m.recordIds);
        i :| InGroup(ops, i, g) && id in ops[i].recordIds;
        NoPredicatesInGroup(ops, g, i);
      }
      HitsIsTargets(ops[i], Row(m.table, key));
      assert key in Targets(ops[i]) && Satisfies(Row(m.table, key), key);
    }
  }

  lemma PredicatesShadowIds(ops: seq<Operation>, m: Operation, i: nat)
    requires InGroup(ops, i, GroupOf(m)) && MergesGroup(ops, GroupOf(m), m)
    requires ops[i].exactPredicates == [] && m.exactPredicates != []
    ensures IdsShadowed(ops, i)
  {
    GroupContents(ops, GroupOf(m));
    assert m.exactPredicates[0] in m.exactPredicates;
    var j :| InGroup(ops, j, GroupOf(m)) && m.exactPredicates[0] in ops[j].exactPredicates;
  }

  lemma MergeKeepsUnshadowed(ops: seq<Operation>, merged: seq<Operation>, i: nat, key: Key)
    requires IsMerge(ops, merged) && OneKeyColumnPerGroup(ops)
    requires i < |ops| && key in Targets(ops[i]) && !IdsShadowed(ops, i)
    ensures HitBy(merged, Row(ops[i].table, key))
  {
    var n := MergedOperationOf(ops, merged, i);
    var m := merged[n];
    assert InGroup(ops, i, GroupOf(m)) && Groups(ops)[i] == GroupOf(m);
    GroupContents(ops, GroupOf(m));
    if ops[i].exactPredicates != [] {
      assert key in m.exactPredicates;
    } else {
      var id :| id in ops[i].recordIds && key == map[ops[i].primaryKey := id];
      if m.exactPredicates != [] {
        PredicatesShadowIds(ops, m, i);
        assert false;
      }
      assert id in Elements(m.recordIds);
      assert m.primaryKey == ops[i].primaryKey;
    }
    HitsIsTargets(m, Row(m.table, key));
    assert key in Targets(m) && Satisfies(Row(m.table, key), key);
  }

  /** Merging keeps the effect exactly when no shadowed id is lost: the probe row of each such id must still be
      hit by some merged operation on that table. */
  lemma MergeKeepsEffectIff(ops: seq<Operation>, merged: seq<Operation>)
    requires IsMerge(ops, merged) && OneKeyColumnPerGroup(ops)
    ensures SameEffect(merged, ops) <==>
      forall i, key :: IdsShadowed(ops, i) && key in Targets(ops[i]) ==> HitBy(merged, Row(ops[i].table, key))
  {
    SameEffectIffEachCovers(merged, ops);
    MergeNamesNothingNew(ops, merged);
    if forall i, key :: IdsShadowed(ops, i) && key in Targets(ops[i]) ==> HitBy(merged, Row(ops[i].table, key)) {
      forall i, key | 0 <= i < |ops| && key in Targets(ops[i])
        ensures HitBy(merged, Row(ops[i].table, key))
      {
        if !IdsShadowed(ops, i) { MergeKeepsUnshadowed(ops, merged, i, key); }
      }
    }
  }

  /** In particular when every group is wholly id-based or wholly predicate-based. */
  lemma UnmixedGroupsMergeFaithfully(ops: seq<Operation>, merged: seq<Operation>)
    requires IsMerge(ops, merged) && OneKeyColumnPerGroup(ops)
    requires forall i, j :: 0 <= i < |ops| && 0 <= j < |ops| && GroupOf(ops[i]) == GroupOf(ops[j]) ==>
               (ops[i].exactPredicates == [] <==> ops[j].exactPredicates == [])
    ensures forall rows: Rows :: Deleted(merged, rows) == Deleted(ops, rows)
  {
    assert forall i :: !IdsShadowed(ops, i);
    MergeKeepsEffectIff(ops, merged);
    assert SameEffect(merged, ops);
  }

  /** Every plan handed to the merge names ids only, so the merge deletes what the plans in turn would. */
  lemma IdPlansMergeFaithfully(ops: seq<Operation>, merged: seq<Operation>)
    requires IsMerge(ops, merged) && OneKeyColumnPerGroup(ops)
    requires forall i :: 0 <= i < |ops| ==> ops[i].exactPredicates == []
    ensures SameEffect(merged, ops)
    ensures forall n :: 0 <= n < |merged| ==> merged[n].exactPredicates == []
  {
    UnmixedGroupsMergeFaithfully(ops, merged);
    forall n | 0 <= n < |merged|
      ensures merged[n].exactPredicates == []
    {
      NoPredicatesAnywhere(ops, GroupOf(merged[n]));
    }
  }

  /** No two operations belong to one owner and table. */
  ghost predicate GroupsDiffer(ops: seq<Operation>) {
    forall i, j :: 0 <= i < j < |ops| ==> GroupOf(ops[i]) != GroupOf(ops[j])
  }

  lemma {:induction false} AloneInItsGroup(ops: seq<Operation>, i: nat)
    requires GroupsDiffer(ops) && i < |ops|
    ensures var g := GroupOf(ops[i]);
      && IdsOf(ops, g) == Elements(ops[i].recordIds) && PredicatesOf(ops, g) == ops[i].exactPredicates
      && KeyColumnOf(ops, g) == ops[i].primaryKey
  {
    var init, last := ops[..|ops| - 1], ops[|ops| - 1];
    if i == |ops| - 1 {
      assert GroupOf(last) !in Groups(init) by {
        forall j | 0 <= j < |init| ensures Groups(init)[j] != GroupOf(last) { assert init[j] == ops[j]; }
      }
      UnseenGroupIsEmpty(init, GroupOf(last));
    } else {
      assert init[i] == ops[i];
      AloneInItsGroup(init, i);
    }
  }

  ghost predicate AllDiffer(gs: seq<Group>) {
    forall i, j :: 0 <= i < j < |gs| ==> gs[i] != gs[j]
  }

  lemma LastIsNew(gs: seq<Group>)
    requires gs != [] && AllDiffer(gs)
    ensures var init := gs[..|gs| - 1]; gs[|gs| - 1] !in init && AllDiffer(init) && gs == init + [gs[|gs| - 1]]
  {}

  lemma {:induction false} DifferentGroupsStay(gs: seq<Group>)
    requires AllDiffer(gs)
    ensures FirstOccurrences(gs) == gs
  {
    if gs != [] {
      hide FirstOccurrences, AllDiffer;
      LastIsNew(gs);
      DifferentGroupsStay(gs[..|gs| - 1]);
      FirstOccurrencesSnoc(gs[..|gs| - 1], gs[|gs| - 1]);
    }
  }

  lemma SameNamesAlike(a: Operation, b: Operation)
    requires a.table == b.table && a.primaryKey == b.primaryKey && a.exactPredicates == b.exactPredicates
    requires Elements(a.recordIds) == Elements(b.recordIds)
    ensures AlikeOperations(a, b)
  {
    forall v
      ensures v in a.recordIds <==> v in b.recordIds
    {
      assert v in Elements(a.recordIds) <==> v in Elements(b.recordIds);
    }
  }

  /** The planners' two merges join plans over different tables: every operation stays in its place and hits the same
      rows, so foreign keys refuse the merge exactly where they would refuse the plans in turn. */
  lemma DifferentGroupsMergeInPlace(refs: References, ops: seq<Operation>, merged: seq<Operation>, rows: Rows)
    requires IsMerge(ops, merged) && GroupsDiffer(ops)
    ensures HitAlike(merged, ops)
    ensures Runs(refs, merged, rows) <==> Runs(refs, ops, rows)
    ensures Erasure(refs, merged, rows) == Erasure(refs, ops, rows)
  {
    hide Runs, Erasure;
    DifferentGroupsStay(Groups(ops));
    assert |merged| == |Groups(merged)| == |ops|;
    forall i | 0 <= i < |ops|
      ensures AlikeOperations(merged[i], ops[i])
    {
      assert Groups(merged)[i] == Groups(ops)[i];
      AloneInItsGroup(ops, i);
      SameNamesAlike(merged[i], ops[i]);
    }
    AlikeRunAlike(refs, merged, ops, rows);
  }

  lemma {:induction false} NoPredicatesAnywhere(ops: seq<Operation>, g: Group)
    requires forall i :: 0 <= i < |ops| ==> ops[i].exactPredicates == []
    ensures PredicatesOf(ops, g) == []
  {
    if ops != [] { NoPredicatesAnywhere(ops[..|ops| - 1], g); }
  }

  lemma OneOperationOfTheGroup(a: Operation)
    ensures IdsOf([a], GroupOf(a)) == Elements(a.recordIds) && PredicatesOf([a], GroupOf(a)) == a.exactPredicates
  {
    assert [a][..0] == [];
    assert IdsOf([], GroupOf(a)) == {} && PredicatesOf([], GroupOf(a)) == [];
    assert [] + a.exactPredicates == a.exactPredicates;
  }

  lemma MergeOfTwo(a: Operation, b: Operation, m: Operation)
    requires GroupOf(a) == GroupOf(b) == GroupOf(m) && m.primaryKey == b.primaryKey && Distinct(m.recordIds)
    requires Elements(m.recordIds) == Elements(a.recordIds) + Elements(b.recordIds)
    requires m.exactPredicates == a.exactPredicates + b.exactPredicates
    ensures IsMerge([a, b], [m])
  {
    var ops, g := [a, b], GroupOf(m);
    OneOperationOfTheGroup(a);
    assert ops[..1] == [a];
    assert Groups(ops) == [g] + [g] && Groups([m]) == [g] && [] + [g] == [g];
    FirstOccurrencesSnoc([], g);
    FirstOccurrencesSnoc([g], g);
  }

  /** The merge function alone can lose ids: on a mixed group, which no planner passes to it, row 1 is deleted by the
      two operations in turn and survives their merge. */
  lemma MixedGroupLosesAnId() returns (ops: seq<Operation>, merged: seq<Operation>, row: Row)
    ensures OneKeyColumnPerGroup(ops) && IsMerge(ops, merged)
    ensures Deleted(ops, {row}) == {row} && Deleted(merged, {row}) == {}
  {
    var byId := Operation("SYS08", "decision_trace_inputs", "id", [Number(1)], []);
    var byKey := Operation("SYS08", "decision_trace_inputs", "id", [Text("id=2")], [map["id" := Number(2)]]);
    var m := byKey.(recordIds := [Number(1), Text("id=2")]);
    ops, merged := [byId, byKey], [m];
    row := Row("decision_trace_inputs", map["id" := Number(1)]);
    MergeOfTwo(byId, byKey, m);
    assert Hits(ops[0], row);
    assert forall k :: k in m.exactPredicates ==> "id" in k.Keys && k["id"] == Number(2);
    assert !Hits(merged[0], row);
  }

  const ASSIGNED_DOCUMENT: Reference :=
    Reference("document_tag_assignments", "document_id", "user_documents", "id", false)

  function Documents(ids: seq<Value>): Operation { Operation("SYS01", "user_documents", "id", ids, []) }

  function Assignments(ids: seq<Value>): Operation {
    Operation("SYS01", "document_tag_assignments", "document_id", ids, [])
  }

  /** The merge function alone can move a row ahead of the one that holds it in place: in turn the two plans run, and
      their merge is refused.  No planner passes it two operations of one table. */
  lemma MergeMovesAParentAhead() returns (ops: seq<Operation>, merged: seq<Operation>, rows: Rows)
    ensures OneKeyColumnPerGroup(ops) && IsMerge(ops, merged)
    ensures Runs({ASSIGNED_DOCUMENT}, ops, rows) && !Runs({ASSIGNED_DOCUMENT}, merged, rows)
  {
    var one, two := Documents([Text("1")]), Documents([Text("2")]);
    var links, both := Assignments([Text("2")]), Documents([Text("1"), Text("2")]);
    ops, merged := [one, links, two], [both, links];
    var parent := Row("user_documents", map["id" := Text("2")]);
    var child := Row("document_tag_assignments", map["document_id" := Text("2")]);
    rows := {parent, child};
    MergesInto(one, links, two, both);
    LinksThenDocument(one, links, two, parent, child);
    DocumentThenLinks(both, links, parent, child);
  }

  lemma MergesInto(one: Operation, links: Operation, two: Operation, both: Operation)
    requires GroupOf(one) == GroupOf(two) == GroupOf(both) != GroupOf(links)
    requires one.primaryKey == two.primaryKey == both.primaryKey
    requires one.exactPredicates == two.exactPredicates == both.exactPredicates == []
    requires Distinct(both.recordIds) && Distinct(links.recordIds)
    requires Elements(both.recordIds) == Elements(one.recordIds) + Elements(two.recordIds)
    ensures IsMerge([one, links, two], [both, links])
  {
    hide MergesGroup, FirstOccurrences;
    var ops, merged := [] + [one] + [links] + [two], [both, links];
    assert ops == [one, links, two];
    InThreeSteps(one, links, two, both);
    OrderOfThree(GroupOf(one), GroupOf(links));
    assert Groups(ops) == [] + [GroupOf(one)] + [GroupOf(links)] + [GroupOf(one)];
    assert Groups(merged) == [] + [GroupOf(one)] + [GroupOf(links)];
  }

  lemma OrderOfThree(g: Group, h: Group)
    requires g != h
    ensures FirstOccurrences([] + [g] + [h] + [g]) == [] + [g] + [h]
  {
    FirstOccurrencesSnoc([], g);
    FirstOccurrencesSnoc([] + [g], h);
    FirstOccurrencesSnoc([] + [g] + [h], g);
  }

  lemma InThreeSteps(one: Operation, links: Operation, two: Operation, both: Operation)
    requires GroupOf(one) == GroupOf(two) == GroupOf(both) != GroupOf(links)
    requires one.primaryKey == two.primaryKey == both.primaryKey
    requires one.exactPredicates == two.exactPredicates == both.exactPredicates == []
    requires Distinct(both.recordIds) && Distinct(links.recordIds)
    requires Elements(both.recordIds) == Elements(one.recordIds) + Elements(two.recordIds)
    ensures MergesGroup([] + [one] + [links] + [two], GroupOf(one), both)
    ensures MergesGroup([] + [one] + [links] + [two], GroupOf(links), links)
  {
    hide IdsOf, PredicatesOf, KeyColumnOf;
    GroupOfThree(one, links, two, GroupOf(one));
    GroupOfThree(one, links, two, GroupOf(links));
    assert [] + [] + links.exactPredicates + [] == links.exactPredicates;
  }

  ghost function IdsIn(op: Operation, g: Group): set<Value> { if GroupOf(op) == g then Elements(op.recordIds) else {} }

  ghost function PredicatesIn(op: Operation, g: Group): seq<Key> { if GroupOf(op) == g then op.exactPredicates else [] }

  lemma GroupOfThree(a: Operation, b: Operation, c: Operation, g: Group)
    ensures var ops := [] + [a] + [b] + [c];
      && IdsOf(ops, g) == {} + IdsIn(a, g) + IdsIn(b, g) + IdsIn(c, g)
      && PredicatesOf(ops, g) == [] + PredicatesIn(a, g) + PredicatesIn(b, g) + PredicatesIn(c, g)
      && KeyColumnOf(ops, g) == (if GroupOf(c) == g then c.primaryKey else if GroupOf(b) == g then b.primaryKey
                                 else if GroupOf(a) == g then a.primaryKey else "")
  {
    GroupSnoc([], a, g);
    GroupSnoc([] + [a], b, g);
    GroupSnoc([] + [a] + [b], c, g);
  }

  lemma GroupSnoc(ops: seq<Operation>, op: Operation, g: Group)
    ensures IdsOf(ops + [op], g) == IdsOf(ops, g) + IdsIn(op, g)
    ensures PredicatesOf(ops + [op], g) == PredicatesOf(ops, g) + PredicatesIn(op, g)
    ensures KeyColumnOf(ops + [op], g) == if GroupOf(op) == g then op.primaryKey else KeyColumnOf(ops, g)
  {
    assert (ops + [op])[..|ops|] == ops;
  }

  lemma NoCascade(rows: Rows, gone: Rows)
    requires gone <= rows
    ensures Cascade({ASSIGNED_DOCUMENT}, rows, gone) == gone
  {
    CascadeIsLeast({ASSIGNED_DOCUMENT}, rows, gone, gone);
  }

  lemma LinksThenDocument(one: Operation, links: Operation, two: Operation, parent: Row, child: Row)
    requires one == Documents([Text("1")]) && two == Documents([Text("2")]) && links == Assignments([Text("2")])
    requires parent == Row("user_documents", map["id" := Text("2")])
    requires child == Row("document_tag_assignments", map["document_id" := Text("2")])
    ensures Runs({ASSIGNED_DOCUMENT}, [one, links, two], {parent, child})
  {
    var ops, rows := [one, links, two], {parent, child};
    RunsIffChildrenGoFirst({ASSIGNED_DOCUMENT}, ops, rows);
    forall n | 0 <= n <= |ops|
      ensures NoneLeftBehind({ASSIGNED_DOCUMENT}, rows, Cascade({ASSIGNED_DOCUMENT}, rows, DeletedBefore(ops, n, rows)))
    {
      NoCascade(rows, DeletedBefore(ops, n, rows));
      assert n == 3 ==> Hits(ops[1], child);
    }
  }

  lemma DocumentThenLinks(both: Operation, links: Operation, parent: Row, child: Row)
    requires both == Documents([Text("1"), Text("2")]) && links == Assignments([Text("2")])
    requires parent == Row("user_documents", map["id" := Text("2")])
    requires child == Row("document_tag_assignments", map["document_id" := Text("2")])
    ensures !Runs({ASSIGNED_DOCUMENT}, [both, links], {parent, child})
  {
    var refs, ops, rows := {ASSIGNED_DOCUMENT}, [both, links], {parent, child};
    RunsIffChildrenGoFirst(refs, ops, rows);
    NoCascade(rows, DeletedBefore(ops, 1, rows));
    assert Hits(ops[0], parent) && parent in DeletedBefore(ops, 1, rows) && child !in DeletedBefore(ops, 1, rows);
    assert Refers(ASSIGNED_DOCUMENT, child, parent) && Restricts(refs, child, parent);
    assert !NoneLeftBehind(refs, rows, Cascade(refs, rows, DeletedBefore(ops, 1, rows)));
  }
}
