/** Deletion plans of the erasure coordinator: what their operations name, and which rows they hit. */
module DeletionPlans {
  import opened Prelude

  datatype Value = Text(text: string) | Number(number: int)

  /** Columns required to hold given values: a conjunction of equalities. */
  type Key = map<string, Value>

  datatype Row = Row(table: string, columns: map<string, Value>)

  type Rows = set<Row>

  /** A resolved absolute POSIX path. */
  type Path = string

  datatype Operation = Operation(
    owner: string, table: string, primaryKey: string, recordIds: seq<Value>, exactPredicates: seq<Key>)

  datatype Plan = Plan(operations: seq<Operation>, files: seq<Path>)

  predicate Satisfies(row: Row, key: Key) {
    forall c :: c in key.Keys ==> c in row.columns && row.columns[c] == key[c]
  }

  /** The DELETE's condition: the predicates if there are any, and only otherwise the id list. */
  predicate Hits(op: Operation, row: Row) {
    row.table == op.table
    && if op.exactPredicates != [] then exists key :: key in op.exactPredicates && Satisfies(row, key)
       else op.primaryKey in row.columns && row.columns[op.primaryKey] in op.recordIds
  }

  /** The keys an operation names, whichever of its two forms it has. */
  ghost function Targets(op: Operation): set<Key> {
    if op.exactPredicates != [] then Elements(op.exactPredicates)
    else set id | id in op.recordIds :: map[op.primaryKey := id]
  }

  /** One of the first n operations hits the row. */
  ghost predicate HitBefore(ops: seq<Operation>, n: nat, row: Row)
    requires n <= |ops|
  {
    exists i :: 0 <= i < n && Hits(ops[i], row)
  }

  ghost predicate HitBy(ops: seq<Operation>, row: Row) {
    HitBefore(ops, |ops|, row)
  }

  ghost function Deleted(ops: seq<Operation>, rows: Rows): (deleted: Rows)
    ensures deleted <= rows
  {
    set r | r in rows && HitBy(ops, r)
  }

  ghost predicate SameEffect(p: seq<Operation>, q: seq<Operation>) {
    forall rows: Rows :: Deleted(p, rows) == Deleted(q, rows)
  }

  lemma HitsIsTargets(op: Operation, row: Row)
    ensures Hits(op, row) <==> row.table == op.table && exists key :: key in Targets(op) && Satisfies(row, key)
  {
    if op.exactPredicates == [] {
      if Hits(op, row) {
        var key := map[op.primaryKey := row.columns[op.primaryKey]];
        assert key in Targets(op) && Satisfies(row, key);
      }
      forall key | key in Targets(op) && Satisfies(row, key)
        ensures row.table == op.table ==> Hits(op, row)
      {
        var id :| id in op.recordIds && key == map[op.primaryKey := id];
        assert op.primaryKey in key.Keys;
      }
    }
  }

  // ---------------------------------------------------------------- when two plans do the same

  /** Every key p names is also caught by q: shown by one probe row per key, holding that key's columns only. */
  ghost predicate Covers(q: seq<Operation>, p: seq<Operation>) {
    forall i, key :: 0 <= i < |p| && key in Targets(p[i]) ==> HitBy(q, Row(p[i].table, key))
  }

  lemma ProbeSpeaksForTheRow(q: seq<Operation>, row: Row, key: Key)
    requires Satisfies(row, key) && HitBy(q, Row(row.table, key))
    ensures HitBy(q, row)
  {
    var i :| 0 <= i < |q| && Hits(q[i], Row(row.table, key));
    HitsIsTargets(q[i], Row(row.table, key));
    var k :| k in Targets(q[i]) && Satisfies(Row(row.table, key), k);
    assert Satisfies(row, k);
    HitsIsTargets(q[i], row);
  }

  lemma CoversIffDeletesAsMuch(q: seq<Operation>, p: seq<Operation>)
    ensures Covers(q, p) <==> forall rows: Rows :: Deleted(p, rows) <= Deleted(q, rows)
  {
    if Covers(q, p) {
      forall rows: Rows, r | r in Deleted(p, rows)
        ensures r in Deleted(q, rows)
      {
        var i :| 0 <= i < |p| && Hits(p[i], r);
        HitsIsTargets(p[i], r);
        var key :| key in Targets(p[i]) && Satisfies(r, key);
        ProbeSpeaksForTheRow(q, r, key);
      }
    }
    if forall rows: Rows :: Deleted(p, rows) <= Deleted(q, rows) {
      forall i, key | 0 <= i < |p| && key in Targets(p[i])
        ensures HitBy(q, Row(p[i].table, key))
      {
        var probe := Row(p[i].table, key);
        assert Satisfies(probe, key);
        HitsIsTargets(p[i], probe);
        assert probe in Deleted(p, {probe});
        assert probe in Deleted(q, {probe});
      }
    }
  }

  /** Two plans delete the same rows from every database exactly when each catches every key the other names;
      the finitely many probe rows decide it. */
  lemma SameEffectIffEachCovers(p: seq<Operation>, q: seq<Operation>)
    ensures SameEffect(p, q) <==> Covers(p, q) && Covers(q, p)
  {
    CoversIffDeletesAsMuch(p, q);
    CoversIffDeletesAsMuch(q, p);
    if SameEffect(p, q) {
      assert forall rows: Rows :: Deleted(p, rows) == Deleted(q, rows);
    }
    if Covers(p, q) && Covers(q, p) {
      forall rows: Rows
        ensures Deleted(p, rows) == Deleted(q, rows)
      {
        assert Deleted(p, rows) <= Deleted(q, rows) && Deleted(q, rows) <= Deleted(p, rows);
      }
    }
  }

  // ---------------------------------------------------------------- operations in turn

  ghost function DeletedBefore(ops: seq<Operation>, n: nat, rows: Rows): (deleted: Rows)
    requires n <= |ops|
    ensures deleted <= rows
  {
    set r | r in rows && HitBefore(ops, n, r)
  }

  /** Operation i is the owner's, and the first in plan order to hit the row. */
  ghost predicate FirstHit(ops: seq<Operation>, i: nat, owner: string, r: Row)
    requires i < |ops|
  {
    ops[i].owner == owner && Hits(ops[i], r) && !HitBefore(ops, i, r)
  }

  /** Rows whose first hit, among the first n operations, is one of this owner's. */
  ghost function Attributed(ops: seq<Operation>, n: nat, owner: string, rows: Rows): Rows
    requires n <= |ops|
  {
    set r | r in rows && exists i :: 0 <= i < n && FirstHit(ops, i, owner, r)
  }

  function Owners(ops: seq<Operation>): seq<string> {
    seq(|ops|, i requires 0 <= i < |ops| => ops[i].owner)
  }

  /** What the n-th DELETE finds left to remove. */
  ghost function Removed(ops: seq<Operation>, n: nat, rows: Rows): Rows
    requires n < |ops|
  {
    set r | r in rows && Hits(ops[n], r) && !HitBefore(ops, n, r)
  }

  lemma OneOperation(ops: seq<Operation>, n: nat, rows: Rows, owner: string)
    requires n < |ops|
    ensures DeletedBefore(ops, n + 1, rows) == DeletedBefore(ops, n, rows) + Removed(ops, n, rows)
    ensures Attributed(ops, n + 1, owner, rows)
         == Attributed(ops, n, owner, rows) + if owner == ops[n].owner then Removed(ops, n, rows) else {}
    ensures DeletedBefore(ops, n, rows) !! Removed(ops, n, rows)
    ensures Attributed(ops, n, owner, rows) !! Removed(ops, n, rows)
  {
    forall r | r in Attributed(ops, n, owner, rows)
      ensures HitBefore(ops, n, r)
    {}
    assert forall r :: r in Removed(ops, n, rows) && owner == ops[n].owner ==> FirstHit(ops, n, owner, r);
  }

  lemma HitByEither(p: seq<Operation>, q: seq<Operation>, row: Row)
    ensures HitBy(p + q, row) <==> HitBy(p, row) || HitBy(q, row)
  {
    if HitBy(p, row) { var i :| 0 <= i < |p| && Hits(p[i], row); assert (p + q)[i] == p[i]; }
    if HitBy(q, row) { var i :| 0 <= i < |q| && Hits(q[i], row); assert (p + q)[|p| + i] == q[i]; }
    if HitBy(p + q, row) {
      var i :| 0 <= i < |p + q| && Hits((p + q)[i], row);
      assert if i < |p| then (p + q)[i] == p[i] else (p + q)[i] == q[i - |p|];
    }
  }
}
