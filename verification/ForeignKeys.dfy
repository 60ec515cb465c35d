/** Foreign keys: what one DELETE takes along, when it is refused, and what a sequence of them leaves. */
module ForeignKeys {
  import opened Prelude
  import opened DeletionPlans

  /** A column that refers to a unique column.  Deleting the row referred to deletes the referring rows as well if
      the reference cascades, and is refused while one is left otherwise. */
  datatype Reference = Reference(table: string, column: string, target: string, targetColumn: string, cascades: bool)

  type References = set<Reference>

  predicate Refers(ref: Reference, child: Row, parent: Row) {
    && child.table == ref.table && ref.column in child.columns
    && parent.table == ref.target && ref.targetColumn in parent.columns
    && child.columns[ref.column] == parent.columns[ref.targetColumn]
  }

  /** The child goes along with the parent. */
  predicate Drags(refs: References, child: Row, parent: Row) {
    exists ref :: ref in refs && ref.cascades && Refers(ref, child, parent)
  }

  /** The parent cannot go while the child is there. */
  predicate Restricts(refs: References, child: Row, parent: Row) {
    exists ref :: ref in refs && !ref.cascades && Refers(ref, child, parent)
  }

  // ---------------------------------------------------------------- one statement

  /** The rows that go along with the given ones, however long the chain. */
  function Cascade(refs: References, rows: Rows, gone: Rows): (all: Rows)
    requires gone <= rows
    ensures gone <= all <= rows
    decreases rows - gone
  {
    var more := set r | r in rows - gone && exists p :: p in gone && Drags(refs, r, p);
    if more == {} then gone else Cascade(refs, rows, gone + more)
  }

  function HitIn(op: Operation, rows: Rows): Rows {
    set r | r in rows && Hits(op, r)
  }

  /** What a DELETE removes from the rows. */
  function Swept(refs: References, rows: Rows, op: Operation): (swept: Rows)
    ensures HitIn(op, rows) <= swept <= rows
  {
    Cascade(refs, rows, HitIn(op, rows))
  }

  /** A row would be left referring to a removed one. */
  predicate Refused(refs: References, rows: Rows, swept: Rows) {
    exists child, parent :: child in rows - swept && parent in swept && Restricts(refs, child, parent)
  }

  /** No row outside refers to one inside by a cascading reference. */
  ghost predicate Closed(refs: References, rows: Rows, s: Rows) {
    forall child, parent :: child in rows && parent in s && Drags(refs, child, parent) ==> child in s
  }

  lemma {:induction false} CascadeIsClosed(refs: References, rows: Rows, gone: Rows)
    requires gone <= rows
    ensures Closed(refs, rows, Cascade(refs, rows, gone))
    decreases rows - gone
  {
    var more := set r | r in rows - gone && exists p :: p in gone && Drags(refs, r, p);
    if more == {} {
      forall child, parent | child in rows && parent in gone && Drags(refs, child, parent)
        ensures child in gone
      {
        assert child in rows - gone ==> child in more;
      }
    } else {
      CascadeIsClosed(refs, rows, gone + more);
    }
  }

  /** The cascade is the least closed set around the given rows. */
  lemma {:induction false} CascadeIsLeast(refs: References, rows: Rows, gone: Rows, s: Rows)
    requires gone <= rows && gone <= s && Closed(refs, rows, s)
    ensures Cascade(refs, rows, gone) <= s
    decreases rows - gone
  {
    var more := set r | r in rows - gone && exists p :: p in gone && Drags(refs, r, p);
    if more != {} { CascadeIsLeast(refs, rows, gone + more, s); }
  }

  lemma CascadeGrows(refs: References, rows: Rows, gone: Rows, further: Rows)
    requires gone <= further <= rows
    ensures Cascade(refs, rows, gone) <= Cascade(refs, rows, further)
  {
    CascadeIsClosed(refs, rows, further);
    CascadeIsLeast(refs, rows, gone, Cascade(refs, rows, further));
  }

  // ---------------------------------------------------------------- why a row goes

  ghost predicate IsChain(refs: References, chain: seq<Row>) {
    forall i :: 0 < i < |chain| ==> Drags(refs, chain[i], chain[i - 1])
  }

  /** One of the first n operations hits the row, or a row that drags it along through a chain of references. */
  ghost predicate Reached(refs: References, ops: seq<Operation>, n: nat, row: Row)
    requires n <= |ops|
  {
    exists chain: seq<Row> ::
      chain != [] && chain[|chain| - 1] == row && HitBefore(ops, n, chain[0]) && IsChain(refs, chain)
  }

  lemma HitIsReached(refs: References, ops: seq<Operation>, n: nat, row: Row)
    requires n <= |ops| && HitBefore(ops, n, row)
    ensures Reached(refs, ops, n, row)
  {
    var chain := [row];
    assert chain[|chain| - 1] == row && chain[0] == row && IsChain(refs, chain);
  }

  lemma DraggedIsReached(refs: References, ops: seq<Operation>, n: nat, child: Row, parent: Row)
    requires n <= |ops| && Reached(refs, ops, n, parent) && Drags(refs, child, parent)
    ensures Reached(refs, ops, n, child)
  {
    var chain: seq<Row> :|
      chain != [] && chain[|chain| - 1] == parent && HitBefore(ops, n, chain[0]) && IsChain(refs, chain);
    var longer := chain + [child];
    assert forall i :: 0 <= i < |chain| ==> longer[i] == chain[i];
    assert longer[|longer| - 1] == child && IsChain(refs, longer);
  }

  lemma ReachedLater(refs: References, ops: seq<Operation>, n: nat, row: Row)
    requires n < |ops| && Reached(refs, ops, n, row)
    ensures Reached(refs, ops, n + 1, row)
  {
    var chain: seq<Row> :|
      chain != [] && chain[|chain| - 1] == row && HitBefore(ops, n, chain[0]) && IsChain(refs, chain);
    assert HitBefore(ops, n + 1, chain[0]);
  }

  lemma SweptIsReached(refs: References, ops: seq<Operation>, n: nat, rows: Rows)
    requires n < |ops|
    ensures forall r :: r in Swept(refs, rows, ops[n]) ==> Reached(refs, ops, n + 1, r)
  {
    var s := set r | r in rows && Reached(refs, ops, n + 1, r);
    forall r | r in HitIn(ops[n], rows)
      ensures r in s
    {
      assert HitBefore(ops, n + 1, r);
      HitIsReached(refs, ops, n + 1, r);
    }
    forall child, parent | child in rows && parent in s && Drags(refs, child, parent)
      ensures child in s
    {
      DraggedIsReached(refs, ops, n + 1, child, parent);
    }
    CascadeIsLeast(refs, rows, HitIn(ops[n], rows), s);
  }

  // ---------------------------------------------------------------- a sequence of statements

  /** What the first n operations have removed, none being refused. */
  ghost function Gone(refs: References, ops: seq<Operation>, n: nat, rows: Rows): (gone: Rows)
    requires n <= |ops|
    ensures gone <= rows
  {
    if n == 0 then {}
    else
      var before := Gone(refs, ops, n - 1, rows);
      before + Swept(refs, rows - before, ops[n - 1])
  }

  /** Operation n is not refused after those before it. */
  ghost predicate Passes(refs: References, ops: seq<Operation>, n: nat, rows: Rows)
    requires n < |ops|
  {
    var left := rows - Gone(refs, ops, n, rows);
    !Refused(refs, left, Swept(refs, left, ops[n]))
  }

  ghost predicate RunsUpTo(refs: References, ops: seq<Operation>, n: nat, rows: Rows)
    requires n <= |ops|
  {
    forall i :: 0 <= i < n ==> Passes(refs, ops, i, rows)
  }

  ghost predicate Runs(refs: References, ops: seq<Operation>, rows: Rows) {
    RunsUpTo(refs, ops, |ops|, rows)
  }

  /** The planned rows and their cascade closure. */
  ghost function Erasure(refs: References, ops: seq<Operation>, rows: Rows): Rows {
    Cascade(refs, rows, Deleted(ops, rows))
  }

  lemma {:induction false} GoneOnlyGrows(refs: References, ops: seq<Operation>, m: nat, n: nat, rows: Rows)
    requires m <= n <= |ops|
    ensures Gone(refs, ops, m, rows) <= Gone(refs, ops, n, rows)
    decreases n
  {
    if m < n { GoneOnlyGrows(refs, ops, m, n - 1, rows); }
  }

  /** Whatever the order of the operations, what is gone in the end is the hit rows and their cascade closure. */
  lemma {:induction false} GoneIsTheCascade(refs: References, ops: seq<Operation>, n: nat, rows: Rows)
    requires n <= |ops|
    ensures Gone(refs, ops, n, rows) == Cascade(refs, rows, DeletedBefore(ops, n, rows))
  {
    hide Cascade, DeletedBefore;
    if n == 0 {
      NothingDeleted(ops, rows);
      CascadeIsLeast(refs, rows, {}, {});
    } else {
      GoneIsTheCascade(refs, ops, n - 1, rows);
      GoneStaysInTheCascade(refs, ops, n, rows);
      GoneCoversTheCascade(refs, ops, n, rows);
    }
  }

  lemma NothingDeleted(ops: seq<Operation>, rows: Rows)
    ensures DeletedBefore(ops, 0, rows) == {}
  {}

  lemma NextDeleted(ops: seq<Operation>, n: nat, rows: Rows)
    requires n < |ops|
    ensures DeletedBefore(ops, n + 1, rows) == DeletedBefore(ops, n, rows) + HitIn(ops[n], rows)
  {}

  lemma GoneStaysInTheCascade(refs: References, ops: seq<Operation>, n: nat, rows: Rows)
    requires 0 < n <= |ops|
    requires Gone(refs, ops, n - 1, rows) == Cascade(refs, rows, DeletedBefore(ops, n - 1, rows))
    ensures Gone(refs, ops, n, rows) <= Cascade(refs, rows, DeletedBefore(ops, n, rows))
  {
    hide Cascade, DeletedBefore;
    NextDeleted(ops, n - 1, rows);
    var all := Cascade(refs, rows, DeletedBefore(ops, n, rows));
    var before := Gone(refs, ops, n - 1, rows);
    CascadeGrows(refs, rows, DeletedBefore(ops, n - 1, rows), DeletedBefore(ops, n, rows));
    CascadeIsClosed(refs, rows, DeletedBefore(ops, n, rows));
    CascadeIsLeast(refs, rows - before, HitIn(ops[n - 1], rows - before), all);
  }

  lemma GoneCoversTheCascade(refs: References, ops: seq<Operation>, n: nat, rows: Rows)
    requires 0 < n <= |ops|
    requires Gone(refs, ops, n - 1, rows) == Cascade(refs, rows, DeletedBefore(ops, n - 1, rows))
    ensures Cascade(refs, rows, DeletedBefore(ops, n, rows)) <= Gone(refs, ops, n, rows)
  {
    hide Cascade, DeletedBefore;
    NextDeleted(ops, n - 1, rows);
    var before, all := Gone(refs, ops, n - 1, rows), Gone(refs, ops, n, rows);
    CascadeIsClosed(refs, rows, DeletedBefore(ops, n - 1, rows));
    CascadeIsClosed(refs, rows - before, HitIn(ops[n - 1], rows - before));
    assert HitIn(ops[n - 1], rows) <= all;
    CascadeIsLeast(refs, rows, DeletedBefore(ops, n, rows), all);
  }

  /** No row outside holds one inside in place. */
  ghost predicate NoneLeftBehind(refs: References, rows: Rows, gone: Rows) {
    forall child, parent :: child in rows && parent in gone && Restricts(refs, child, parent) ==> child in gone
  }

  lemma PassesIff(refs: References, ops: seq<Operation>, n: nat, rows: Rows)
    requires n < |ops| && NoneLeftBehind(refs, rows, Gone(refs, ops, n, rows))
    ensures Passes(refs, ops, n, rows) <==> NoneLeftBehind(refs, rows, Gone(refs, ops, n + 1, rows))
  {
    hide Swept, Restricts;
    var before := Gone(refs, ops, n, rows);
    var swept := Swept(refs, rows - before, ops[n]);
    assert Gone(refs, ops, n + 1, rows) == before + swept;
    if NoneLeftBehind(refs, rows, before + swept) {
      forall child, parent | child in rows - before - swept && parent in swept
        ensures !Restricts(refs, child, parent)
      {
        assert parent in before + swept;
      }
    }
  }

  lemma {:induction false} RunsUpToIff(refs: References, ops: seq<Operation>, n: nat, rows: Rows)
    requires n <= |ops|
    ensures RunsUpTo(refs, ops, n, rows) <==>
      forall m :: 0 <= m <= n ==> NoneLeftBehind(refs, rows, Gone(refs, ops, m, rows))
  {
    hide NoneLeftBehind, Passes, Gone;
    if n == 0 {
      NothingGone(refs, ops, rows);
    } else {
      RunsUpToIff(refs, ops, n - 1, rows);
      assert RunsUpTo(refs, ops, n, rows) <==> RunsUpTo(refs, ops, n - 1, rows) && Passes(refs, ops, n - 1, rows);
      if RunsUpTo(refs, ops, n - 1, rows) {
        assert NoneLeftBehind(refs, rows, Gone(refs, ops, n - 1, rows));
        PassesIff(refs, ops, n - 1, rows);
        assert RunsUpTo(refs, ops, n, rows) ==>
          forall m :: 0 <= m <= n ==> NoneLeftBehind(refs, rows, Gone(refs, ops, m, rows));
        assert NoneLeftBehind(refs, rows, Gone(refs, ops, n, rows)) ==> RunsUpTo(refs, ops, n, rows);
      } else {
        var m :| 0 <= m <= n - 1 && !NoneLeftBehind(refs, rows, Gone(refs, ops, m, rows));
      }
    }
  }

  lemma NothingGone(refs: References, ops: seq<Operation>, rows: Rows)
    ensures Gone(refs, ops, 0, rows) == {} && NoneLeftBehind(refs, rows, Gone(refs, ops, 0, rows))
  {}

  /** A plan runs through exactly when after each operation no remaining row refers to one that the operations so far
      hit or drag along: whatever holds a row in place has to go no later than that row. */
  lemma RunsIffChildrenGoFirst(refs: References, ops: seq<Operation>, rows: Rows)
    ensures Runs(refs, ops, rows) <==>
      forall n :: 0 <= n <= |ops| ==> NoneLeftBehind(refs, rows, Cascade(refs, rows, DeletedBefore(ops, n, rows)))
  {
    hide NoneLeftBehind, RunsUpTo, Cascade, DeletedBefore;
    RunsUpToIff(refs, ops, |ops|, rows);
    if Runs(refs, ops, rows) {
      forall n | 0 <= n <= |ops|
        ensures NoneLeftBehind(refs, rows, Cascade(refs, rows, DeletedBefore(ops, n, rows)))
      {
        assert NoneLeftBehind(refs, rows, Gone(refs, ops, n, rows));
        GoneIsTheCascade(refs, ops, n, rows);
      }
    } else {
      var n :| 0 <= n <= |ops| && !NoneLeftBehind(refs, rows, Gone(refs, ops, n, rows));
      GoneIsTheCascade(refs, ops, n, rows);
      assert !NoneLeftBehind(refs, rows, Cascade(refs, rows, DeletedBefore(ops, n, rows)));
    }
  }

  /** An empty database refuses nothing. */
  lemma NothingIsRefused(refs: References, ops: seq<Operation>)
    ensures Runs(refs, ops, {})
  {}

  /** A row whose table no operation names and no cascading reference leaves stays, whatever else goes. */
  lemma UnnamedTableStays(refs: References, ops: seq<Operation>, rows: Rows, child: Row)
    requires forall i :: 0 <= i < |ops| ==> ops[i].table != child.table
    requires forall ref :: ref in refs && ref.table == child.table ==> !ref.cascades
    ensures child !in Erasure(refs, ops, rows)
  {
    var others := set r | r in rows && r.table != child.table;
    assert Deleted(ops, rows) <= others;
    assert Closed(refs, rows, others);
    CascadeIsLeast(refs, rows, Deleted(ops, rows), others);
  }

  /** So a plan that hits a row such a child holds in place is refused. */
  lemma UnnamedChildRefuses(refs: References, ops: seq<Operation>, rows: Rows, child: Row, parent: Row)
    requires forall i :: 0 <= i < |ops| ==> ops[i].table != child.table
    requires forall ref :: ref in refs && ref.table == child.table ==> !ref.cascades
    requires child in rows && parent in rows && HitBy(ops, parent) && Restricts(refs, child, parent)
    ensures !Runs(refs, ops, rows)
  {
    RunsIffChildrenGoFirst(refs, ops, rows);
    UnnamedTableStays(refs, ops, rows, child);
    assert DeletedBefore(ops, |ops|, rows) == Deleted(ops, rows);
    assert parent in Erasure(refs, ops, rows);
    assert !NoneLeftBehind(refs, rows, Cascade(refs, rows, DeletedBefore(ops, |ops|, rows)));
  }

  // ---------------------------------------------------------------- plans that run alike

  /** Operation by operation, the two hit the same rows. */
  ghost predicate HitAlike(p: seq<Operation>, q: seq<Operation>) {
    |p| == |q| && forall i :: 0 <= i < |p| ==> AlikeOperations(p[i], q[i])
  }

  ghost predicate AlikeOperations(a: Operation, b: Operation) {
    forall row :: Hits(a, row) <==> Hits(b, row)
  }

  lemma {:induction false} AlikeIsGone(
    refs: References, p: seq<Operation>, q: seq<Operation>, n: nat, rows: Rows)
    requires HitAlike(p, q) && n <= |p|
    ensures Gone(refs, p, n, rows) == Gone(refs, q, n, rows)
    ensures n < |p| ==> (Passes(refs, p, n, rows) <==> Passes(refs, q, n, rows))
  {
    if n > 0 {
      AlikeIsGone(refs, p, q, n - 1, rows);
      AlikeIsSwept(refs, rows - Gone(refs, p, n - 1, rows), p[n - 1], q[n - 1]);
    }
    if n < |p| { AlikeIsSwept(refs, rows - Gone(refs, p, n, rows), p[n], q[n]); }
  }

  lemma AlikeIsSwept(refs: References, rows: Rows, a: Operation, b: Operation)
    requires AlikeOperations(a, b)
    ensures HitIn(a, rows) == HitIn(b, rows) && Swept(refs, rows, a) == Swept(refs, rows, b)
  {}

  /** Plans that hit alike are refused by the same databases, and remove the same rows from all others. */
  lemma AlikeRunAlike(refs: References, p: seq<Operation>, q: seq<Operation>, rows: Rows)
    requires HitAlike(p, q)
    ensures Runs(refs, p, rows) <==> Runs(refs, q, rows)
    ensures Erasure(refs, p, rows) == Erasure(refs, q, rows)
  {
    hide Passes, Gone;
    forall n | 0 <= n <= |p|
      ensures Gone(refs, p, n, rows) == Gone(refs, q, n, rows)
      ensures n < |p| ==> (Passes(refs, p, n, rows) <==> Passes(refs, q, n, rows))
    {
      AlikeIsGone(refs, p, q, n, rows);
    }
    AllGone(refs, p, rows);
    AllGone(refs, q, rows);
  }

  lemma AllGone(refs: References, ops: seq<Operation>, rows: Rows)
    ensures Gone(refs, ops, |ops|, rows) == Erasure(refs, ops, rows)
  {
    GoneIsTheCascade(refs, ops, |ops|, rows);
    assert DeletedBefore(ops, |ops|, rows) == Deleted(ops, rows);
  }

  // ---------------------------------------------------------------- two plans in turn

  lemma {:induction false} FirstPartGone(
    refs: References, p: seq<Operation>, q: seq<Operation>, n: nat, rows: Rows)
    requires n <= |p|
    ensures Gone(refs, p + q, n, rows) == Gone(refs, p, n, rows)
  {
    if n > 0 {
      FirstPartGone(refs, p, q, n - 1, rows);
      assert (p + q)[n - 1] == p[n - 1];
    }
  }

  lemma {:induction false} SecondPartGone(
    refs: References, p: seq<Operation>, q: seq<Operation>, k: nat, rows: Rows)
    requires k <= |q|
    ensures var first := Gone(refs, p, |p|, rows);
      && Gone(refs, p + q, |p| + k, rows) == first + Gone(refs, q, k, rows - first)
      && rows - Gone(refs, p + q, |p| + k, rows) == rows - first - Gone(refs, q, k, rows - first)
  {
    if k == 0 {
      FirstPartGone(refs, p, q, |p|, rows);
    } else {
      SecondPartGone(refs, p, q, k - 1, rows);
      assert (p + q)[|p| + k - 1] == q[k - 1];
    }
  }

  /** Running two plans in turn is running their operations as one plan. */
  lemma RunsInTurn(refs: References, p: seq<Operation>, q: seq<Operation>, rows: Rows)
    ensures var left := rows - Erasure(refs, p, rows);
      && (Runs(refs, p + q, rows) <==> Runs(refs, p, rows) && Runs(refs, q, left))
      && rows - Erasure(refs, p + q, rows) == left - Erasure(refs, q, left)
  {
    hide Passes, Gone, Erasure, Runs;
    AllGone(refs, p, rows);
    AllGone(refs, p + q, rows);
    SecondPartGone(refs, p, q, |q|, rows);
    var left := rows - Gone(refs, p, |p|, rows);
    AllGone(refs, q, left);
    if Runs(refs, p + q, rows) { PartsRun(refs, p, q, rows); }
    if Runs(refs, p, rows) && Runs(refs, q, left) { WholeRuns(refs, p, q, rows); }
  }

  lemma PartsRun(refs: References, p: seq<Operation>, q: seq<Operation>, rows: Rows)
    requires Runs(refs, p + q, rows)
    ensures Runs(refs, p, rows) && Runs(refs, q, rows - Gone(refs, p, |p|, rows))
  {
    hide Passes, Gone;
    forall n | 0 <= n < |p| ensures Passes(refs, p, n, rows) { FirstPartPasses(refs, p, q, n, rows); }
    forall k | 0 <= k < |q| ensures Passes(refs, q, k, rows - Gone(refs, p, |p|, rows)) {
      SecondPartPasses(refs, p, q, k, rows);
    }
  }

  lemma WholeRuns(refs: References, p: seq<Operation>, q: seq<Operation>, rows: Rows)
    requires Runs(refs, p, rows) && Runs(refs, q, rows - Gone(refs, p, |p|, rows))
    ensures Runs(refs, p + q, rows)
  {
    hide Passes, Gone;
    forall n | 0 <= n < |p + q|
      ensures Passes(refs, p + q, n, rows)
    {
      if n < |p| { FirstPartPasses(refs, p, q, n, rows); } else { SecondPartPasses(refs, p, q, n - |p|, rows); }
    }
  }

  lemma FirstPartPasses(refs: References, p: seq<Operation>, q: seq<Operation>, n: nat, rows: Rows)
    requires n < |p|
    ensures Passes(refs, p + q, n, rows) <==> Passes(refs, p, n, rows)
  {
    FirstPartGone(refs, p, q, n, rows);
    assert (p + q)[n] == p[n];
  }

  lemma SecondPartPasses(refs: References, p: seq<Operation>, q: seq<Operation>, k: nat, rows: Rows)
    requires k < |q|
    ensures Passes(refs, p + q, |p| + k, rows) <==> Passes(refs, q, k, rows - Gone(refs, p, |p|, rows))
  {
    hide Swept, Refused, Gone;
    SecondPartGone(refs, p, q, k, rows);
    assert (p + q)[|p| + k] == q[k];
  }
}
