/** Executing a deletion plan in one transaction, and what its report counts. */
module PlanExecution {
  import opened Prelude
  import opened Tallies
  import opened DeletionPlans
  import opened ForeignKeys

  datatype Execution = Execution(rows: Rows, results: Tally)

  /** An owner's failure, or an operation refused because a remaining row refers to what it removes. */
  datatype Failure = OwnerFails(owner: string) | RowHeld(operation: nat)

  // ---------------------------------------------------------------- what is counted

  /** What operation n finds and hits; the rows it drags along are not counted. */
  ghost function Found(refs: References, ops: seq<Operation>, n: nat, rows: Rows): Rows
    requires n < |ops|
  {
    HitIn(ops[n], rows - Gone(refs, ops, n, rows))
  }

  ghost predicate FoundBefore(refs: References, ops: seq<Operation>, n: nat, rows: Rows, r: Row)
    requires n <= |ops|
  {
    exists i :: 0 <= i < n && r in Found(refs, ops, i, rows)
  }

  /** Rows found by the owner's operations among the first n. */
  ghost function Counted(refs: References, ops: seq<Operation>, n: nat, owner: string, rows: Rows): Rows
    requires n <= |ops|
  {
    set r | r in rows && exists i :: 0 <= i < n && ops[i].owner == owner && r in Found(refs, ops, i, rows)
  }

  ghost function AllFound(refs: References, ops: seq<Operation>, n: nat, rows: Rows): Rows
    requires n <= |ops|
  {
    set r | r in rows && FoundBefore(refs, ops, n, rows, r)
  }

  /** Rows that went only because of a cascading reference, before any operation hit them. */
  ghost function DraggedAlong(refs: References, ops: seq<Operation>, rows: Rows): Rows {
    Erasure(refs, ops, rows) - AllFound(refs, ops, |ops|, rows)
  }

  lemma OneMoreFound(refs: References, ops: seq<Operation>, n: nat, rows: Rows)
    requires n < |ops|
    ensures AllFound(refs, ops, n, rows) <= Gone(refs, ops, n, rows)
    ensures AllFound(refs, ops, n, rows) !! Found(refs, ops, n, rows)
    ensures AllFound(refs, ops, n + 1, rows) == AllFound(refs, ops, n, rows) + Found(refs, ops, n, rows)
  {
    forall r | r in AllFound(refs, ops, n, rows)
      ensures r in Gone(refs, ops, n, rows)
    {
      FoundIsGone(refs, ops, n, rows, r);
    }
  }

  lemma FoundIsGone(refs: References, ops: seq<Operation>, n: nat, rows: Rows, r: Row)
    requires n <= |ops| && FoundBefore(refs, ops, n, rows, r)
    ensures r in Gone(refs, ops, n, rows)
  {
    var i :| 0 <= i < n && r in Found(refs, ops, i, rows);
    assert r in Gone(refs, ops, i + 1, rows);
    GoneOnlyGrows(refs, ops, i + 1, n, rows);
  }

  lemma OneMoreCounted(refs: References, ops: seq<Operation>, n: nat, rows: Rows, owner: string)
    requires n < |ops|
    ensures Counted(refs, ops, n, owner, rows) !! Found(refs, ops, n, rows)
    ensures Counted(refs, ops, n + 1, owner, rows)
         == Counted(refs, ops, n, owner, rows) + if owner == ops[n].owner then Found(refs, ops, n, rows) else {}
  {
    OneMoreFound(refs, ops, n, rows);
    forall r | r in Counted(refs, ops, n, owner, rows)
      ensures r in AllFound(refs, ops, n, rows)
    {
      assert FoundBefore(refs, ops, n, rows, r);
    }
  }

  /** The tally after n operations. */
  ghost predicate Counts(grouped: Tally, refs: References, ops: seq<Operation>, n: nat, rows: Rows)
    requires n <= |ops|
  {
    && Total(grouped) == |AllFound(refs, ops, n, rows)|
    && Names(grouped) == FirstOccurrences(Owners(ops)[..n])
    && forall owner :: CountOf(grouped, owner) == |Counted(refs, ops, n, owner, rows)|
  }

  lemma CountsNothing(refs: References, ops: seq<Operation>, rows: Rows)
    ensures Counts([], refs, ops, 0, rows)
  {}

  lemma CountOne(grouped: Tally, refs: References, ops: seq<Operation>, n: nat, rows: Rows)
    requires n < |ops| && Counts(grouped, refs, ops, n, rows)
    ensures Counts(Bump(grouped, ops[n].owner, |Found(refs, ops, n, rows)|), refs, ops, n + 1, rows)
  {
    hide Counted, Found, AllFound, FirstOccurrences;
    var k := |Found(refs, ops, n, rows)|;
    BumpAdds(grouped, ops[n].owner, k);
    BumpKeepsNames(grouped, ops[n].owner, k);
    assert Owners(ops)[..n + 1] == Owners(ops)[..n] + [ops[n].owner];
    FirstOccurrencesSnoc(Owners(ops)[..n], ops[n].owner);
    OneMoreFound(refs, ops, n, rows);
    forall owner
      ensures CountOf(Bump(grouped, ops[n].owner, k), owner) == |Counted(refs, ops, n + 1, owner, rows)|
    {
      OneMoreCounted(refs, ops, n, rows, owner);
    }
  }

  // ---------------------------------------------------------------- execution

  ghost predicate NoOwnerFails(ops: seq<Operation>, n: nat, fails: string -> bool)
    requires n <= |ops|
  {
    forall i :: 0 <= i < n ==> !fails(ops[i].owner)
  }

  /** The first thing that goes wrong. */
  ghost predicate FailsWith(
    refs: References, ops: seq<Operation>, rows: Rows, fails: string -> bool, failure: Failure)
  {
    match failure
    case OwnerFails(owner) =>
      fails(owner) && exists i :: 0 <= i < |ops| && ops[i].owner == owner
                                  && NoOwnerFails(ops, i, fails) && RunsUpTo(refs, ops, i, rows)
    case RowHeld(n) =>
      n < |ops| && NoOwnerFails(ops, n + 1, fails) && RunsUpTo(refs, ops, n, rows) && !Passes(refs, ops, n, rows)
  }

  /** The planned rows and their cascade closure are gone, every other row is untouched, and the counts share out the
      rows the operations found, each to one owner. */
  ghost predicate Executed(refs: References, ops: seq<Operation>, rows: Rows, e: Execution) {
    && e.rows == rows - Erasure(refs, ops, rows)
    && Names(e.results) == FirstOccurrences(Owners(ops))
    && (forall owner :: CountOf(e.results, owner) == |Counted(refs, ops, |ops|, owner, rows)|)
    && Total(e.results) + |DraggedAlong(refs, ops, rows)| == |rows| - |e.rows|
  }

  /** Runs the operations in order, stopping at the first failing owner or refused operation. */
  method ExecutePlan(refs: References, ops: seq<Operation>, rows: Rows, fails: string -> bool)
    returns (r: Result<Execution, Failure>)
    ensures r.Ok? <==> NoOwnerFails(ops, |ops|, fails) && Runs(refs, ops, rows)
    ensures r.Err? ==> FailsWith(refs, ops, rows, fails, r.error)
    ensures r.Ok? ==> Executed(refs, ops, rows, r.value)
  {
    hide Swept, Refused, Counts, Gone, Found, Passes;
    var left := rows;
    var grouped: Tally := [];
    var injected: set<string> := {};
    CountsNothing(refs, ops, rows);
    NothingGone(refs, ops, rows);
    for n := 0 to |ops|
      invariant left == rows - Gone(refs, ops, n, rows)
      invariant Counts(grouped, refs, ops, n, rows)
      invariant NoOwnerFails(ops, n, fails) && RunsUpTo(refs, ops, n, rows)
      invariant forall owner :: owner in injected ==> !fails(owner)
    {
      var op := ops[n];
      if op.owner !in injected {
        injected := injected + {op.owner};
        if fails(op.owner) {
          return Err(OwnerFails(op.owner));
        }
      }
      var swept := Swept(refs, left, op);
      NextOperation(refs, ops, n, rows, left);
      if Refused(refs, left, swept) {
        return Err(RowHeld(n));
      }
      CountOne(grouped, refs, ops, n, rows);
      grouped := Bump(grouped, op.owner, |HitIn(op, left)|);
      left := left - swept;
    }
    Summary(refs, ops, rows, left, grouped);
    return Ok(Execution(left, grouped));
  }

  lemma NextOperation(refs: References, ops: seq<Operation>, n: nat, rows: Rows, left: Rows)
    requires n < |ops| && left == rows - Gone(refs, ops, n, rows)
    ensures HitIn(ops[n], left) == Found(refs, ops, n, rows)
    ensures Passes(refs, ops, n, rows) <==> !Refused(refs, left, Swept(refs, left, ops[n]))
    ensures left - Swept(refs, left, ops[n]) == rows - Gone(refs, ops, n + 1, rows)
  {
    hide Swept, Refused;
  }

  lemma Summary(refs: References, ops: seq<Operation>, rows: Rows, left: Rows, grouped: Tally)
    requires left == rows - Gone(refs, ops, |ops|, rows) && Counts(grouped, refs, ops, |ops|, rows)
    ensures Executed(refs, ops, rows, Execution(left, grouped))
  {
    hide Gone, Found, Erasure, Counted, FoundBefore, FirstOccurrences;
    assert Owners(ops)[..|ops|] == Owners(ops);
    AllGone(refs, ops, rows);
    var erased, found := Erasure(refs, ops, rows), AllFound(refs, ops, |ops|, rows);
    forall r | r in found
      ensures r in erased
    {
      FoundIsGone(refs, ops, |ops|, rows, r);
    }
    assert rows == left + erased && erased == found + DraggedAlong(refs, ops, rows);
  }

  // ---------------------------------------------------------------- what the counts leave out

  /** The report counts every removed row exactly when each operation leaves no row for a reference to drag along. */
  lemma EverythingIsCountedIff(refs: References, ops: seq<Operation>, rows: Rows)
    ensures DraggedAlong(refs, ops, rows) == {} <==>
      forall n :: 0 <= n <= |ops| ==> Closed(refs, rows, DeletedBefore(ops, n, rows))
  {
    if DraggedAlong(refs, ops, rows) == {} {
      forall n | 0 <= n <= |ops|
        ensures Closed(refs, rows, DeletedBefore(ops, n, rows))
      {
        GoneIsHit(refs, ops, n, rows);
        GoneIsTheCascade(refs, ops, n, rows);
        CascadeIsClosed(refs, rows, DeletedBefore(ops, n, rows));
      }
    }
    if forall n :: 0 <= n <= |ops| ==> Closed(refs, rows, DeletedBefore(ops, n, rows)) {
      forall r | r in Erasure(refs, ops, rows)
        ensures r in AllFound(refs, ops, |ops|, rows)
      {
        AllGone(refs, ops, rows);
        ClosedIsFound(refs, ops, |ops|, rows, r);
      }
    }
  }

  lemma GoneIsHit(refs: References, ops: seq<Operation>, n: nat, rows: Rows)
    requires n <= |ops| && DraggedAlong(refs, ops, rows) == {}
    ensures Gone(refs, ops, n, rows) == DeletedBefore(ops, n, rows)
  {
    AllGone(refs, ops, rows);
    GoneIsTheCascade(refs, ops, n, rows);
    GoneOnlyGrows(refs, ops, n, |ops|, rows);
    forall r | r in Gone(refs, ops, n, rows)
      ensures r in DeletedBefore(ops, n, rows)
    {
      assert r in Erasure(refs, ops, rows) && r !in DraggedAlong(refs, ops, rows);
      assert r in AllFound(refs, ops, |ops|, rows);
      var i :| 0 <= i < |ops| && r in Found(refs, ops, i, rows);
      if i >= n { GoneOnlyGrows(refs, ops, n, i, rows); }
    }
  }

  lemma {:induction false} ClosedIsFound(refs: References, ops: seq<Operation>, n: nat, rows: Rows, r: Row)
    requires n <= |ops| && r in Gone(refs, ops, n, rows)
    requires forall m :: 0 <= m <= |ops| ==> Closed(refs, rows, DeletedBefore(ops, m, rows))
    ensures FoundBefore(refs, ops, n, rows, r)
  {
    if r in Gone(refs, ops, n - 1, rows) {
      ClosedIsFound(refs, ops, n - 1, rows, r);
    } else {
      GoneIsTheCascade(refs, ops, n, rows);
      CascadeIsLeast(refs, rows, DeletedBefore(ops, n, rows), DeletedBefore(ops, n, rows));
      GoneIsTheCascade(refs, ops, n - 1, rows);
      assert r in Found(refs, ops, n - 1, rows);
    }
  }

  /** No owner is reported more rows than those its operations are the first to hit. */
  lemma CountedIsAttributed(refs: References, ops: seq<Operation>, n: nat, owner: string, rows: Rows)
    requires n <= |ops|
    ensures Counted(refs, ops, n, owner, rows) <= Attributed(ops, n, owner, rows)
  {
    forall r | r in Counted(refs, ops, n, owner, rows)
      ensures r in Attributed(ops, n, owner, rows)
    {
      var i :| 0 <= i < n && ops[i].owner == owner && r in Found(refs, ops, i, rows);
      GoneIsTheCascade(refs, ops, i, rows);
      assert FirstHit(ops, i, owner, r);
    }
  }
}
