/** The erasure coordinator itself: the methods that drive the database session and the file system.  Every fault
    the coordinator can meet is an input, read where it would strike, and every execution is shown to be a run of the
    transition system in ErasureWorkflow, so what holds at every point of every run holds inside these methods too. */
module ErasureCoordinators {
  import opened Prelude
  import opened DeletionPlans
  import opened ForeignKeys
  import opened PlanExecution
  import opened ErasureWorkflow
  import opened ErasurePreviews
  import opened Tallies
  import PlanDigest
  import PlanImpacts

  /** A report with the workflow's status, or an end without one: a hard stop, or an exception left to the caller. */
  datatype Outcome = Reported(status: Status) | Ended

  datatype ErasureError = PreviewExpired | ConfirmationInvalid | ErasurePartial | ModeUnsupported

  /** Why no plan can be built: a target that is gone or not the user's own, or data that cannot be attributed. */
  datatype BuildRefusal = NotConfirmable | NotAttributable

  function ErrorOf(refusal: BuildRefusal): ErasureError {
    match refusal
    case NotConfirmable => ConfirmationInvalid
    case NotAttributable => ErasurePartial
  }

  type Built = Result<Plan, BuildRefusal>

  /** User, scope, target and present rows, and the order in which the database returns its answers. */
  type Planner = (string, string, Option<string>, Rows, nat) -> Built

  /** The order of the answers shows only in the order of ids and files. */
  ghost predicate OrderOnly(planner: Planner) {
    forall user, scope, target, rows, a: nat, b: nat ::
      SameButForOrder(planner(user, scope, target, rows, a), planner(user, scope, target, rows, b))
  }

  ghost predicate SameButForOrder(p: Built, q: Built) {
    if p.Ok? && q.Ok? then PlanDigest.Reordered(p.value, q.value) else p == q
  }

  const DOCUMENT: string := "DOCUMENT"
  const ALL_PERSONAL_DATA: string := "ALL_PERSONAL_DATA"

  function PhraseFor(scope: string, target: Option<string>): string {
    "\U{6C38}\U{4E45}\U{5220}\U{9664} " + if target.Some? && target.value != "" then target.value else scope
  }

  /** Ten minutes. */
  const PREVIEW_TTL: int := 600

  /** Where a stop, or an exception, can strike. */
  datatype FaultPoint =
    | BeforeMarker | BeforeRow                        // a first confirmation
    | BeforeRetry                                     // a retry
    | BeforeJournal | InTransaction | BeforeCommit | AtCommit
    | AfterRollback | BeforeFailure | AfterFailure    // the path after an exception before the receipt
    | AtFile(i: nat) | AtJournal | AtDirectory        // the purge
    | AtMarker
    | BeforeRecovery | BeforePartial | AfterPartial   // the path after an exception behind the receipt
    | LeavingPartial | BeforeResumed | AfterResumed   // a resume
    | BeforeCompleted | AfterCompleted | AtMarkerRemoval

  /** The faults of one call. */
  type Faults = FaultPoint -> bool

  ghost predicate Undisturbed(faults: Faults) {
    forall p :: !faults(p)
  }

  predicate RollsBackQuietly(faults: Faults) {
    !faults(AfterRollback) && !faults(BeforeFailure) && !faults(AfterFailure)
  }

  predicate RecoversQuietly(faults: Faults) {
    !faults(BeforeRecovery) && !faults(BeforePartial) && !faults(AfterPartial)
  }

  ghost predicate PurgesAll(journal: Option<seq<Path>>, faults: Faults) {
    journal.Some? ==>
      (forall i :: 0 <= i < |journal.value| ==> !faults(AtFile(i))) && !faults(AtJournal) && !faults(AtDirectory)
  }

  function JournalOf(files: seq<Path>): Option<seq<Path>> {
    if files == [] then None else Some(files)
  }

  /** What a confirmation asked for: by whom, under which key, and for what. */
  datatype Confirmation = Confirmation(
    userId: string, key: string, planDigest: PlanDigest.Digest, scope: string, target: Option<string>, phrase: string)

  function ConfirmationOf(e: PreviewEntry, phrase: string, key: string): Confirmation {
    Confirmation(e.userId, key, e.planDigest, e.scope, e.target, phrase)
  }

  /** How the workflow row keeps it. */
  function RequestOf(c: Confirmation): Request {
    Request(UserRef(c.userId), c.key, RequestDigest(c.planDigest, UserRef(c.userId), c.scope, c.target, c.phrase))
  }

  /** The row of every workflow is that of its confirmation. */
  ghost predicate Remembered(flows: map<WorkflowId, Flow>, confirmations: map<WorkflowId, Confirmation>) {
    forall w :: w in flows && flows[w].row.Some? ==>
      w in confirmations && flows[w].row.value.request == RequestOf(confirmations[w])
  }

  /** The workflow that this user has confirmed under this key. */
  ghost predicate ConfirmedBy(flows: map<WorkflowId, Flow>, confirmations: map<WorkflowId, Confirmation>,
                              userId: string, key: string, w: WorkflowId) {
    && w in flows && flows[w].row.Some? && w in confirmations
    && confirmations[w].userId == userId && confirmations[w].key == key
  }

  lemma LookUpMeetsIff(flows: map<WorkflowId, Flow>, confirmations: map<WorkflowId, Confirmation>, userId: string,
                       key: string, w: WorkflowId)
    requires Remembered(flows, confirmations) && w in flows
    ensures IsFor(flows[w], UserRef(userId), key) <==> ConfirmedBy(flows, confirmations, userId, key, w)
  {}

  lemma RequestsAgreeIff(c: Confirmation, d: Confirmation)
    requires c.userId == d.userId && c.key == d.key
    ensures RequestOf(c).digest == RequestOf(d).digest <==> c == d
  {}

  /** One touched flow, its request kept or that of a new confirmation. */
  lemma StillRemembered(before: map<WorkflowId, Flow>, after: map<WorkflowId, Flow>,
                        confirmations: map<WorkflowId, Confirmation>, w: WorkflowId)
    requires Remembered(before, confirmations) && after.Keys == before.Keys + {w}
    requires forall v :: v in after && v != w ==> after[v] == before[v]
    requires after[w].row.Some? ==> w in confirmations && after[w].row.value.request == RequestOf(confirmations[w])
    ensures Remembered(after, confirmations)
  {}

  function LookUp<T>(m: map<WorkflowId, T>, w: WorkflowId): Option<T> {
    if w in m then Some(m[w]) else None
  }

  function Store<T>(m: map<WorkflowId, T>, w: WorkflowId, value: Option<T>): map<WorkflowId, T> {
    if value.Some? then m[w := value.value] else m - {w}
  }

  lemma StoreLooksUp<T>(m: map<WorkflowId, T>, w: WorkflowId, value: Option<T>)
    ensures LookUp(Store(m, w, value), w) == value
    ensures forall v :: v != w ==> LookUp(Store(m, w, value), v) == LookUp(m, v)
    ensures Store(m, w, value).Keys <= m.Keys + {w}
    ensures LookUp(m, w) == value ==> Store(m, w, value) == m
  {}

  /** The steps lead from the origin to the present state. */
  ghost predicate IsRun(origin: World, steps: seq<Step>, world: World) {
    Inv(origin) && Allowed(origin, steps) && world == After(origin, steps)
  }

  lemma RunGrows(origin: World, steps: seq<Step>, world: World, step: Step)
    requires IsRun(origin, steps, world) && Enabled(world, step)
    ensures IsRun(origin, steps + [step], Apply(world, step))
  {
    assert [step][1..] == [] && Allowed(world, [step]) && After(world, [step]) == Apply(world, step);
    RunsCompose(origin, steps, [step]);
  }

  lemma RunFits(origin: World, steps: seq<Step>, world: World)
    requires IsRun(origin, steps, world)
    ensures Inv(world)
  {
    RunKeepsInv(origin, steps);
  }

  /** Every point on the way satisfies the invariant, not only the present state. */
  lemma {:induction false} EveryPointFits(origin: World, steps: seq<Step>, k: nat)
    requires Inv(origin) && Allowed(origin, steps) && k <= |steps|
    ensures Allowed(origin, steps[..k]) && Inv(After(origin, steps[..k]))
    decreases k
  {
    if k > 0 {
      StepKeepsInv(origin, steps[0]);
      EveryPointFits(Apply(origin, steps[0]), steps[1..], k - 1);
      assert steps[..k][0] == steps[0] && steps[..k][1..] == steps[1..][..k - 1];
    }
  }

  /** The three per-workflow stores hold what the protocol state says. */
  ghost predicate Held(flows: map<WorkflowId, Flow>, workflows: map<WorkflowId, Workflow>,
      receipts: map<WorkflowId, nat>, journals: map<WorkflowId, seq<Path>>) {
    && workflows.Keys <= flows.Keys && receipts.Keys <= flows.Keys && journals.Keys <= flows.Keys
    && forall w :: w in flows ==> FlowIs(flows[w], LookUp(workflows, w), LookUp(receipts, w), LookUp(journals, w))
  }

  predicate FlowIs(f: Flow, row: Option<Workflow>, receipt: Option<nat>, journal: Option<seq<Path>>) {
    f.row == row && f.receipt == receipt && f.journal == journal
  }

  lemma HeldAfter(flows: map<WorkflowId, Flow>, workflows: map<WorkflowId, Workflow>, receipts: map<WorkflowId, nat>,
                  journals: map<WorkflowId, seq<Path>>, w: WorkflowId, f: Flow)
    requires Held(flows, workflows, receipts, journals)
    ensures Held(flows[w := f], Store(workflows, w, f.row), Store(receipts, w, f.receipt),
      Store(journals, w, f.journal))
    ensures LookUp(workflows, w) == f.row ==> Store(workflows, w, f.row) == workflows
    ensures LookUp(receipts, w) == f.receipt ==> Store(receipts, w, f.receipt) == receipts
    ensures LookUp(journals, w) == f.journal ==> Store(journals, w, f.journal) == journals
  {
    StoreLooksUp(workflows, w, f.row);
    StoreLooksUp(receipts, w, f.receipt);
    StoreLooksUp(journals, w, f.journal);
  }

  class ErasureCoordinator {
    // committed database
    var workflows: map<WorkflowId, Workflow>
    var receipts: map<WorkflowId, nat>
    var checkpoint: nat
    var rows: Rows
    // file system
    var marker: Option<Marker>
    var journals: map<WorkflowId, seq<Path>>
    var files: set<Path>
    /** The schema's foreign keys. */
    const references: References
    const registry: PreviewRegistry
    /** The table-by-table queries that build a plan from the current rows. */
    const planner: Planner
    const fails: string -> bool
    const sqlite: bool
    // history: where the coordinator started, the steps taken since, and where they lead
    ghost var origin: World
    ghost var steps: seq<Step>
    ghost var world: World
    /** What each workflow was confirmed for. */
    ghost var confirmations: map<WorkflowId, Confirmation>

    /** What has happened so far is a run of the protocol, and the stores are where it leads. */
    ghost predicate Valid()
      reads this
    {
      && IsRun(origin, steps, world)
      && Held(world.flows, workflows, receipts, journals)
      && world.shared == Shared(checkpoint, rows, references, marker, files)
    }

    twostate predicate OnlyTouched(w: WorkflowId)
      reads this
    {
      && world.flows.Keys == old(world.flows.Keys) + {w}
      && forall v :: v in world.flows && v != w ==> world.flows[v] == old(world.flows[v])
    }

    /** This call prolonged the run by steps of workflow w. */
    twostate predicate Prolonged(w: WorkflowId)
      reads this
    {
      Valid() && origin == old(origin) && old(steps) <= steps && OnlyTouched(w)
    }

    /** No coroutine is under way: the state between calls. */
    ghost predicate Quiet()
      reads this
    {
      && Valid() && (forall w :: w in world.flows ==> world.flows[w].task.None?)
      && Remembered(world.flows, confirmations)
    }

    constructor (registry: PreviewRegistry, planner: Planner, fails: string -> bool,
                 sqlite: bool, rows: Rows, references: References, files: set<Path>)
      ensures Quiet() && world == Initial(rows, references, files)
      ensures this.registry == registry && this.planner == planner && this.fails == fails && this.sqlite == sqlite
      ensures this.references == references && confirmations == map[]
    {
      this.registry, this.planner, this.fails, this.sqlite := registry, planner, fails, sqlite;
      workflows, receipts, checkpoint, this.rows := map[], map[], 0, rows;
      marker, journals, this.files := None, map[], files;
      this.references, confirmations := references, map[];
      origin, steps, world := Initial(rows, references, files), [], Initial(rows, references, files);
    }

    /** Everything this coordinator has ever done kept the protocol's invariant between any two of its steps. */
    lemma ConsistentAtEveryPoint(k: nat)
      requires Valid() && k <= |steps|
      ensures Allowed(origin, steps[..k]) && Inv(After(origin, steps[..k]))
    {
      EveryPointFits(origin, steps, k);
    }

    /** The next step of workflow w: how the stores have to look after it. */
    ghost method Takes(w: WorkflowId, a: Action)
      requires Valid() && Enabled(world, Act(w, a))
      modifies this`steps, this`world
      ensures IsRun(origin, steps, world) && steps == old(steps) + [Act(w, a)]
      ensures OnlyTouched(w) && world.flows[w] == old(FlowAfter(world.flows[w], world.shared, a))
      ensures world.shared == old(SharedAfter(w, world.flows[w], world.shared, a))
      ensures var before, after := old(world.flows[w]), world.flows[w];
        && Held(world.flows, Store(workflows, w, after.row), Store(receipts, w, after.receipt),
          Store(journals, w, after.journal))
        && (after.row == before.row ==> Store(workflows, w, after.row) == workflows)
        && (after.receipt == before.receipt ==> Store(receipts, w, after.receipt) == receipts)
        && (after.journal == before.journal ==> Store(journals, w, after.journal) == journals)
        && before.row == LookUp(workflows, w)
    {
      hide IsRun;
      RunGrows(origin, steps, world, Act(w, a));
      HeldAfter(world.flows, workflows, receipts, journals, w, FlowAfter(world.flows[w], world.shared, a));
      steps, world := steps + [Act(w, a)], Apply(world, Act(w, a));
    }

    /** The coroutine ends where it is. */
    ghost method StopHere(w: WorkflowId)
      requires Valid() && w in world.flows && world.flows[w].task.Some?
      modifies this`steps, this`world
      ensures Prolonged(w) && world.flows[w] == old(world.flows[w]).(task := None) && world.shared == old(world.shared)
    {
      hide IsRun, Held;
      Takes(w, Stop);
    }

    // -------------------------------------------------------------- single effects

    /** Lists the files before the first delete, when there are any. */
    method PrepareFileJournal(w: WorkflowId, plan: Plan)
      requires Valid() && w in world.flows && world.flows[w].plan == plan && InPhase(world.flows[w], Journaling)
      modifies this`journals, this`steps, this`world
      ensures Prolonged(w) && world.shared == old(world.shared)
      ensures world.flows[w] == At(old(world.flows[w]), Executing(0, {})).(
        journal := if plan.files == [] then old(world.flows[w]).journal else Some(plan.files))
    {
      hide IsRun, Held;
      Takes(w, WriteJournal);
      if plan.files != [] {
        journals := journals[w := plan.files];
      }
    }

    /** Removes the journal file, and its directory, after the rollback. */
    method DiscardFileJournal(w: WorkflowId)
      requires Valid() && w in world.flows && InPhase(world.flows[w], RolledBack)
      modifies this`journals, this`steps, this`world
      ensures Prolonged(w) && world.shared == old(world.shared)
      ensures world.flows[w] == At(old(world.flows[w]), Discarded).(journal := None)
    {
      hide IsRun, Held;
      Takes(w, DiscardJournal);
      journals := journals - {w};
    }

    /** Records FAILED_RETRYABLE. */
    method CommitFailure(w: WorkflowId)
      requires Valid() && w in world.flows && InPhase(world.flows[w], Discarded) && world.flows[w].row.Some?
      modifies this`workflows, this`steps, this`world
      ensures Prolonged(w) && world.shared == old(world.shared)
      ensures world.flows[w] == WithStatus(At(old(world.flows[w]), FailureCommitted), FailedRetryable)
    {
      hide IsRun, Held;
      Takes(w, Action.CommitFailure);
      workflows := workflows[w := workflows[w].(status := FailedRetryable)];
    }

    method AnnounceFailure(w: WorkflowId)
      requires Valid() && w in world.flows && InPhase(world.flows[w], FailureCommitted)
      modifies this`marker, this`steps, this`world
      ensures Prolonged(w) && world.flows[w] == old(world.flows[w]).(task := None)
      ensures world.shared == old(world.shared).(marker := Some(Marker(w, None, FailedRetryable)))
    {
      hide IsRun, Held;
      Takes(w, Action.AnnounceFailure);
      marker := Some(Marker(w, None, FailedRetryable));
    }

    // -------------------------------------------------------------- before the receipt

    /** A step that touches neither database nor files. */
    ghost method Pass(w: WorkflowId, a: Action)
      requires Valid() && w in world.flows && MayAct(world.flows[w], world.shared, a) && IsInternal(a)
      modifies this`steps, this`world
      ensures Prolonged(w) && world.shared == old(world.shared)
      ensures world.flows[w] == old(FlowAfter(world.flows[w], world.shared, a))
    {
      InternalKeepsTheStores(w, world.flows[w], world.shared, a);
      assert Enabled(world, Act(w, a));
      hide IsRun, Held, FlowAfter, SharedAfter, MayAct, Enabled, Store;
      Takes(w, a);
    }

    /** The first n deletes run in the open transaction. */
    ghost method StageDeletes(w: WorkflowId, n: nat)
      requires Valid() && w in world.flows && InPhase(world.flows[w], Executing(0, {}))
        && n <= |world.flows[w].plan.operations|
      requires RunsUpTo(references, world.flows[w].plan.operations, n, world.shared.rows)
      modifies this`steps, this`world
      ensures Prolonged(w) && world.shared == old(world.shared)
      ensures world.flows[w]
        == old(At(world.flows[w], Executing(n, Gone(references, world.flows[w].plan.operations, n, world.shared.rows))))
    {
      hide Valid, Passes;
      var f, before := world.flows[w], world.shared.rows;
      for i := 0 to n
        invariant Prolonged(w) && world.shared == old(world.shared)
        invariant world.flows[w] == At(f, Executing(i, Gone(references, f.plan.operations, i, before)))
      {
        StageNext(w, f.plan.operations, i, before);
      }
    }

    ghost method StageNext(w: WorkflowId, ops: seq<Operation>, i: nat, before: Rows)
      requires Valid() && w in world.flows && world.flows[w].plan.operations == ops && i < |ops|
        && world.shared.rows == before
      requires InPhase(world.flows[w], Executing(i, Gone(references, ops, i, before)))
      requires Passes(references, ops, i, before)
      modifies this`steps, this`world
      ensures Prolonged(w) && world.shared == old(world.shared)
      ensures world.flows[w] == At(old(world.flows[w]), Executing(i + 1, Gone(references, ops, i + 1, before)))
    {
      hide IsRun, Held, Refused, Swept;
      Pass(w, DeleteNext);
    }

    /** One commit: the deletes, the receipt under the next checkpoint, the checkpoint row and the workflow row. */
    method CommitErasure(w: WorkflowId, left: Rows)
      requires Valid() && w in world.flows && world.flows[w].row.Some?
      requires var f := world.flows[w];
        && f.task == Some(Task(
             Executing(|f.plan.operations|, Erasure(references, f.plan.operations, world.shared.rows)),
             Some(world.shared.checkpoint)))
        && left == world.shared.rows - Erasure(references, f.plan.operations, world.shared.rows)
      modifies this`workflows, this`receipts, this`checkpoint, this`rows, this`steps, this`world
      ensures Prolonged(w) && world.shared == Erased(old(world.flows[w]), old(world.shared))
      ensures world.flows[w] == At(Receipted(old(world.flows[w]), old(checkpoint) + 1), Purging(0, false))
      ensures old(checkpoint) == old(world.shared.checkpoint)
    {
      hide IsRun, Held, Enabled, Erasure, Refused, NextSwept;
      MayCommit(w);
      Takes(w, CommitReceipt);
      checkpoint := checkpoint + 1;
      receipts := receipts[w := checkpoint];
      workflows := workflows[w := workflows[w].(status := AwaitingBaseline, checkpoint := Some(checkpoint))];
      rows := left;
    }

    lemma MayCommit(w: WorkflowId)
      requires Valid() && w in world.flows && world.flows[w].task.Some? && world.flows[w].task.value.phase.Executing?
      requires world.flows[w].task.value.phase.next == |world.flows[w].plan.operations|
      requires world.flows[w].task.value.seen == Some(world.shared.checkpoint)
      ensures Enabled(world, Act(w, CommitReceipt))
    {
      RunFits(origin, steps, world);
      CommitNeedsCurrentCheckpoint(world, w);
    }

    /** Everything staged is rolled back; the workflow may be retried. */
    method FailErasure(w: WorkflowId, faults: Faults) returns (o: Outcome)
      requires Valid() && w in world.flows && world.flows[w].task.Some? && world.flows[w].task.value.phase.Executing?
      requires world.flows[w].row.Some?
      modifies this`workflows, this`journals, this`marker, this`steps, this`world
      ensures Prolonged(w) && FailedTo(w, old(world.flows[w]), old(world.shared), world.flows[w], world.shared, o)
      ensures o == Reported(FailedRetryable) <==> RollsBackQuietly(faults)
    {
      hide Valid;
      Pass(w, RollBack);
      if faults(AfterRollback) {
        StopHere(w);
        return Ended;
      }
      DiscardFileJournal(w);
      o := RecordFailure(w, faults);
    }

    method RecordFailure(w: WorkflowId, faults: Faults) returns (o: Outcome)
      requires Valid() && w in world.flows && InPhase(world.flows[w], Discarded) && world.flows[w].row.Some?
      modifies this`workflows, this`marker, this`steps, this`world
      ensures Prolonged(w)
      ensures o == if faults(BeforeFailure) || faults(AfterFailure) then Ended else Reported(FailedRetryable)
      ensures o.Reported? ==> (
        && world.flows[w] == WithStatus(old(world.flows[w]), FailedRetryable).(task := None)
        && world.shared == old(world.shared).(marker := Some(Marker(w, None, FailedRetryable))))
      ensures o.Ended? ==> (
        && (world.flows[w] == old(world.flows[w]).(task := None)
            || world.flows[w] == WithStatus(old(world.flows[w]), FailedRetryable).(task := None))
        && world.shared == old(world.shared))
    {
      hide Valid;
      if faults(BeforeFailure) {
        StopHere(w);
        return Ended;
      }
      CommitFailure(w);
      if faults(AfterFailure) {
        StopHere(w);
        return Ended;
      }
      AnnounceFailure(w);
      return Reported(FailedRetryable);
    }

    // -------------------------------------------------------------- behind the receipt

    lemma Fits(w: WorkflowId)
      requires Valid() && w in world.flows
      ensures FlowFits(world.flows[w], world.shared)
    {
      RunFits(origin, steps, world);
    }

    /** Removes one journalled file; it may already be gone. */
    method Unlink(w: WorkflowId, file: Path, ghost i: nat, ghost resumed: bool)
      requires Valid() && w in world.flows && InPhase(world.flows[w], Purging(i, resumed))
      requires world.flows[w].journal.Some? && i < |world.flows[w].journal.value|
        && file == world.flows[w].journal.value[i]
      modifies this`files, this`steps, this`world
      ensures Prolonged(w) && world.flows[w] == At(old(world.flows[w]), Purging(i + 1, resumed))
      ensures world.shared == old(world.shared).(files := old(world.shared).files - {file})
    {
      hide IsRun, Held;
      Takes(w, UnlinkNext);
      files := files - {file};
    }

    /** Removes the emptied journal. */
    method DropFileJournal(w: WorkflowId, ghost i: nat, ghost resumed: bool)
      requires Valid() && w in world.flows && InPhase(world.flows[w], Purging(i, resumed))
      requires world.flows[w].journal.Some? ==> i == |world.flows[w].journal.value|
      modifies this`journals, this`steps, this`world
      ensures Prolonged(w) && world.shared == old(world.shared)
      ensures world.flows[w] == At(old(world.flows[w]), Purged(resumed)).(journal := None)
    {
      hide IsRun, Held;
      Takes(w, DropJournal);
      journals := journals - {w};
    }

    /** Unlinks the journalled files in order and then the journal; any of these can fail, leaving the rest. */
    method PurgeFileJournal(w: WorkflowId, ghost resumed: bool, faults: Faults) returns (ok: bool)
      requires Valid() && w in world.flows && InPhase(world.flows[w], Purging(0, resumed))
        && world.flows[w].receipt.Some?
      modifies this`journals, this`files, this`steps, this`world
      ensures Prolonged(w) && PurgedTo(old(world.flows[w]), old(world.shared), world.flows[w], world.shared,
        resumed, ok)
      ensures ok <==> PurgesAll(old(world.flows[w]).journal, faults)
    {
      hide Valid;
      Fits(w);
      JournalListsThePlan(world.flows[w], world.shared);
      var journal := FindJournal(w);
      if journal.None? {
        DropFileJournal(w, 0, resumed);
        return true;
      }
      ok := UnlinkAll(w, journal.value, resumed, faults);
      if !ok || faults(AtJournal) { return false; }
      DropFileJournal(w, |journal.value|, resumed);
      return !faults(AtDirectory);
    }

    method UnlinkAll(w: WorkflowId, names: seq<Path>, ghost resumed: bool, faults: Faults) returns (ok: bool)
      requires Valid() && w in world.flows && InPhase(world.flows[w], Purging(0, resumed))
        && world.flows[w].journal == Some(names)
      modifies this`files, this`steps, this`world
      ensures Prolonged(w) && world.shared == old(world.shared).(files := world.shared.files)
      ensures world.flows[w].task.Some? && world.flows[w] == old(world.flows[w]).(task := world.flows[w].task)
      ensures ok <==> forall i :: 0 <= i < |names| ==> !faults(AtFile(i))
      ensures ok ==> InPhase(world.flows[w], Purging(|names|, resumed))
      ensures ok ==> world.shared.files == old(world.shared.files) - Elements(names)
      ensures world.flows[w].task.value.phase.Purging? && world.flows[w].task.value.phase.resumed == resumed
      ensures old(world.shared.files) - Elements(names) <= world.shared.files <= old(world.shared.files)
    {
      hide Valid;
      ghost var f, sh := world.flows[w], world.shared;
      for i := 0 to |names|
        invariant Prolonged(w) && world.flows[w] == At(f, Purging(i, resumed))
        invariant world.shared == sh.(files := sh.files - Elements(names[..i]))
        invariant forall j :: 0 <= j < i ==> !faults(AtFile(j))
      {
        if faults(AtFile(i)) { return false; }
        Unlink(w, names[i], i, resumed);
        assert Elements(names[..i + 1]) == Elements(names[..i]) + {names[i]};
      }
      assert names[..|names|] == names;
      return true;
    }

    method FindJournal(w: WorkflowId) returns (journal: Option<seq<Path>>)
      requires Valid() && w in world.flows
      ensures journal == world.flows[w].journal
    {
      hide IsRun;
      assert FlowIs(world.flows[w], LookUp(workflows, w), LookUp(receipts, w), LookUp(journals, w));
      return if w in journals then Some(journals[w]) else None;
    }

    /** Commits the status PARTIAL. */
    method CommitPartial(w: WorkflowId)
      requires Valid() && w in world.flows && InPhase(world.flows[w], PurgeFailed) && world.flows[w].row.Some?
      modifies this`workflows, this`steps, this`world
      ensures Prolonged(w) && world.shared == old(world.shared)
      ensures world.flows[w] == WithStatus(At(old(world.flows[w]), PartialCommitted), Partial)
    {
      hide IsRun, Held;
      Takes(w, Action.CommitPartial);
      workflows := workflows[w := workflows[w].(status := Partial)];
    }

    /** Commits AWAITING after a resumed purge. */
    method CommitResumed(w: WorkflowId)
      requires Valid() && w in world.flows && InPhase(world.flows[w], Purged(true)) && world.flows[w].row.Some?
      modifies this`workflows, this`steps, this`world
      ensures Prolonged(w) && world.shared == old(world.shared)
      ensures world.flows[w] == WithStatus(At(old(world.flows[w]), ResumeCommitted), AwaitingBaseline)
    {
      hide IsRun, Held;
      Takes(w, Action.CommitResumed);
      workflows := workflows[w := workflows[w].(status := AwaitingBaseline)];
    }

    method AnnouncePartial(w: WorkflowId)
      requires Valid() && w in world.flows && InPhase(world.flows[w], PartialCommitted)
      modifies this`marker, this`steps, this`world
      ensures Prolonged(w) && world.flows[w] == old(world.flows[w]).(task := None)
      ensures world.shared == old(world.shared).(marker := Some(Marker(w, old(world.flows[w]).receipt, Partial)))
    {
      hide IsRun, Held;
      var number := FindReceipt(w);
      Takes(w, Action.AnnouncePartial);
      marker := Some(Marker(w, number, Partial));
    }

    method AnnounceAwaiting(w: WorkflowId)
      requires Valid() && w in world.flows
        && (InPhase(world.flows[w], Purged(false)) || InPhase(world.flows[w], ResumeCommitted))
      modifies this`marker, this`steps, this`world
      ensures Prolonged(w) && world.flows[w] == old(world.flows[w]).(task := None)
      ensures world.shared == old(world.shared).(marker := Some(Marker(w, old(world.flows[w]).receipt,
        AwaitingBaseline)))
    {
      hide IsRun, Held;
      var number := FindReceipt(w);
      Takes(w, Action.AnnounceAwaiting);
      marker := Some(Marker(w, number, AwaitingBaseline));
    }

    method FindReceipt(w: WorkflowId) returns (number: Option<nat>)
      requires Valid() && w in world.flows
      ensures number == world.flows[w].receipt
    {
      hide IsRun;
      assert FlowIs(world.flows[w], LookUp(workflows, w), LookUp(receipts, w), LookUp(journals, w));
      return if w in receipts then Some(receipts[w]) else None;
    }

    /** The file purge after the commit, with its own exception path. */
    method FinishErasure(w: WorkflowId, faults: Faults) returns (o: Outcome)
      requires Valid() && w in world.flows && InPhase(world.flows[w], Purging(0, false))
      requires world.flows[w].receipt.Some? && HasStatus(world.flows[w], AwaitingBaseline)
      modifies this`workflows, this`journals, this`marker, this`files, this`steps, this`world
      ensures Prolonged(w) && FinishedTo(w, old(world.flows[w]), old(world.shared), world.flows[w], world.shared, o)
      ensures FinishesAs(old(world.flows[w]).journal, faults, o)
    {
      hide Valid, PurgesAll;
      var ok := PurgeFileJournal(w, false, faults);
      if ok && !faults(AtMarker) {
        AnnounceAwaiting(w);
        return Reported(AwaitingBaseline);
      }
      o := RecoverFromPurge(w, faults);
    }

    /** A stop, or the exception path behind the receipt. */
    method RecoverFromPurge(w: WorkflowId, faults: Faults) returns (o: Outcome)
      requires Valid() && w in world.flows && HasStatus(world.flows[w], AwaitingBaseline) && world.flows[w].task.Some?
      requires var p := world.flows[w].task.value.phase; (p.Purging? || p.Purged?) && !p.resumed
      modifies this`workflows, this`marker, this`steps, this`world
      ensures Prolonged(w) && PartialOrEnded(w, old(world.flows[w]), old(world.shared), world.flows[w], world.shared, o)
      ensures o == if RecoversQuietly(faults) then Reported(Partial) else Ended
    {
      hide Valid;
      if faults(BeforeRecovery) {
        StopHere(w);
        return Ended;
      }
      Pass(w, FailPurge);
      o := RecordPartial(w, faults);
    }

    method RecordPartial(w: WorkflowId, faults: Faults) returns (o: Outcome)
      requires Valid() && w in world.flows && InPhase(world.flows[w], PurgeFailed)
        && HasStatus(world.flows[w], AwaitingBaseline)
      modifies this`workflows, this`marker, this`steps, this`world
      ensures Prolonged(w) && PartialOrEnded(w, old(world.flows[w]), old(world.shared), world.flows[w], world.shared, o)
      ensures o == if faults(BeforePartial) || faults(AfterPartial) then Ended else Reported(Partial)
    {
      hide Valid;
      if faults(BeforePartial) {
        StopHere(w);
        return Ended;
      }
      CommitPartial(w);
      if faults(AfterPartial) {
        StopHere(w);
        return Ended;
      }
      AnnouncePartial(w);
      return Reported(Partial);
    }

    // -------------------------------------------------------------- the workflow

    /** The checkpoint row as this session sees it: loaded once, then kept. */
    ghost method LoadCheckpointOnce(w: WorkflowId)
      requires Valid() && w in world.flows && world.flows[w].task.Some?
        && BeforeReceipt(world.flows[w].task.value.phase)
      requires world.flows[w].task.value.seen in {None, Some(world.shared.checkpoint)}
      modifies this`steps, this`world
      ensures Prolonged(w) && world.shared == old(world.shared)
      ensures world.flows[w]
        == old(world.flows[w]).(task := Some(old(world.flows[w]).task.value.(seen := Some(world.shared.checkpoint))))
    {
      hide Valid;
      if world.flows[w].task.value.seen.None? {
        Pass(w, LoadCheckpoint);
      }
    }

    /** No owner's step fails, and no foreign key refuses an operation. */
    ghost predicate CanRun(plan: Plan, present: Rows) {
      NoOwnerFails(plan.operations, |plan.operations|, fails) && Runs(references, plan.operations, present)
    }

    /** The receipt is issued exactly when the plan can run and nothing strikes before the commit is through. */
    ghost predicate ReachesReceipt(plan: Plan, present: Rows, faults: Faults) {
      && CanRun(plan, present)
      && !faults(BeforeJournal) && !faults(InTransaction) && !faults(BeforeCommit) && !faults(AtCommit)
    }

    /** How a run ends, fault by fault. */
    ghost predicate RunsAs(plan: Plan, present: Rows, faults: Faults, o: Outcome, receipt: Option<nat>) {
      && (receipt.Some? <==> ReachesReceipt(plan, present, faults))
      && (ReachesReceipt(plan, present, faults) ==> FinishesAs(JournalOf(plan.files), faults, o))
      && (!ReachesReceipt(plan, present, faults) ==>
            o == if !faults(BeforeJournal) && RollsBackQuietly(faults)
                    && (CanRun(plan, present) && !faults(InTransaction) ==> !faults(BeforeCommit))
                 then Reported(FailedRetryable) else Ended)
    }

    /** With nothing striking, a plan that can run is carried out to the end, and one that cannot leaves everything. */
    ghost predicate CarriedOut(w: WorkflowId, plan: Plan, before: Shared, after: World, o: Outcome)
      requires w in after.flows && after.flows[w].row.Some?
    {
      if CanRun(plan, before.rows) then
        && o == Reported(AwaitingBaseline) && after.flows[w].row.value.status == AwaitingBaseline
        && after.flows[w].receipt == Some(before.checkpoint + 1) == after.flows[w].row.value.checkpoint
        && after.flows[w].journal == None && after.shared.checkpoint == before.checkpoint + 1
        && after.shared.rows == before.rows - Erasure(references, plan.operations, before.rows)
        && after.shared.files == before.files - Elements(plan.files)
        && after.shared.marker == Some(Marker(w, Some(before.checkpoint + 1), AwaitingBaseline))
      else
        && o == Reported(FailedRetryable) && after.flows[w].row.value.status == FailedRetryable
        && after.flows[w].receipt == None && after.flows[w].journal == None
        && after.shared == before.(marker := Some(Marker(w, None, FailedRetryable)))
    }

    lemma UndisturbedIsCarriedOut(w: WorkflowId, plan: Plan, f: Flow, before: Shared, after: World, faults: Faults,
                                  o: Outcome)
      requires w in after.flows && f.row.Some? && f.receipt.None? && f.plan == plan && before.references == references
      requires RanTo(w, f, before, after.flows[w], after.shared, o) && after.flows[w].row.Some?
      requires RunsAs(plan, before.rows, faults, o, after.flows[w].receipt) && Undisturbed(faults)
      ensures CarriedOut(w, plan, before, after, o)
    {
      assert !faults(AtJournal) && !faults(AtDirectory) && !faults(AtMarker);
    }

    method RunWorkflow(w: WorkflowId, plan: Plan, faults: Faults) returns (o: Outcome)
      requires Valid() && w in world.flows && world.flows[w].plan == plan && InPhase(world.flows[w], Journaling)
      requires HasStatus(world.flows[w], Running)
        && world.flows[w].task.value.seen in {None, Some(world.shared.checkpoint)}
      requires world.flows[w].receipt.None?
      modifies this`workflows, this`receipts, this`checkpoint, this`rows, this`journals, this`marker, this`files,
        this`steps, this`world
      ensures Prolonged(w) && RanTo(w, old(world.flows[w]), old(world.shared), world.flows[w], world.shared, o)
      ensures RunsAs(plan, old(world.shared.rows), faults, o, world.flows[w].receipt)
      ensures world.flows[w].row.Some? && (Undisturbed(faults) ==> CarriedOut(w, plan, old(world.shared), world, o))
    {
      NoJournalYet(w);
      o := RunTo(w, plan, faults);
      if Undisturbed(faults) {
        UndisturbedIsCarriedOut(w, plan, old(world.flows[w]), old(world.shared), world, faults, o);
      }
    }

    lemma NoJournalYet(w: WorkflowId)
      requires Valid() && w in world.flows && InPhase(world.flows[w], Journaling)
      ensures world.flows[w].journal.None? && world.shared.references == references
    {
      Fits(w);
    }

    method RunTo(w: WorkflowId, plan: Plan, faults: Faults) returns (o: Outcome)
      requires Valid() && w in world.flows && world.flows[w].plan == plan && InPhase(world.flows[w], Journaling)
      requires HasStatus(world.flows[w], Running)
        && world.flows[w].task.value.seen in {None, Some(world.shared.checkpoint)}
      requires world.flows[w].receipt.None? && world.flows[w].journal.None?
      modifies this`workflows, this`receipts, this`checkpoint, this`rows, this`journals, this`marker, this`files,
        this`steps, this`world
      ensures Prolonged(w) && RanTo(w, old(world.flows[w]), old(world.shared), world.flows[w], world.shared, o)
      ensures RunsAs(plan, old(world.shared.rows), faults, o, world.flows[w].receipt)
      ensures world.flows[w].row.Some?
    {
      hide Valid, CanRun, FinishesAs;
      if faults(BeforeJournal) {
        StopHere(w);
        return Ended;
      }
      PrepareFileJournal(w, plan);
      var ok, left := ExecuteInTransaction(w, plan, faults);
      if !ok {
        o := FailErasure(w, faults);
        return;
      }
      o := CommitAndFinish(w, left, faults);
    }

    method CommitAndFinish(w: WorkflowId, left: Rows, faults: Faults) returns (o: Outcome)
      requires Valid() && w in world.flows && HasStatus(world.flows[w], Running) && world.flows[w].receipt.None?
      requires var f := world.flows[w];
        && f.task == Some(Task(
             Executing(|f.plan.operations|, Erasure(references, f.plan.operations, world.shared.rows)),
             Some(world.shared.checkpoint)))
        && left == world.shared.rows - Erasure(references, f.plan.operations, world.shared.rows)
      modifies this`workflows, this`receipts, this`checkpoint, this`rows, this`journals, this`marker, this`files,
        this`steps, this`world
      ensures Prolonged(w) && RanTo(w, old(world.flows[w]), old(world.shared), world.flows[w], world.shared, o)
      ensures world.flows[w].row.Some?
      ensures world.flows[w].receipt.Some? <==> !faults(BeforeCommit) && !faults(AtCommit)
      ensures world.flows[w].receipt.Some? ==> FinishesAs(old(world.flows[w]).journal, faults, o)
      ensures world.flows[w].receipt.None? ==>
        o == if !faults(BeforeCommit) && RollsBackQuietly(faults) then Reported(FailedRetryable) else Ended
    {
      hide Valid, FinishesAs;
      if faults(BeforeCommit) {
        StopHere(w);
        return Ended;
      }
      if faults(AtCommit) {
        o := FailErasure(w, faults);
        return;
      }
      CommitErasure(w, left);
      o := FinishErasure(w, faults);
    }

    /** Runs the plan in the open transaction; an owner, or the database, may fail at any operation. */
    method ExecuteInTransaction(w: WorkflowId, plan: Plan, faults: Faults) returns (ok: bool, left: Rows)
      requires Valid() && w in world.flows && world.flows[w].plan == plan && InPhase(world.flows[w], Executing(0, {}))
      requires world.flows[w].task.value.seen in {None, Some(world.shared.checkpoint)}
      modifies this`steps, this`world
      ensures Prolonged(w) && world.shared == old(world.shared)
      ensures world.flows[w] == old(world.flows[w]).(task := world.flows[w].task)
      ensures world.flows[w].task.Some? && world.flows[w].task.value.phase.Executing?
      ensures ok <==> CanRun(plan, world.shared.rows) && !faults(InTransaction)
      ensures ok ==> (
        && left == world.shared.rows - Erasure(references, plan.operations, world.shared.rows)
        && world.flows[w].task == Some(Task(
             Executing(|plan.operations|, Erasure(references, plan.operations, world.shared.rows)),
             Some(world.shared.checkpoint))))
    {
      var current := ReadRows();
      hide Valid;
      var r := ExecutePlan(references, plan.operations, current, fails);
      ok := r.Ok?;
      if faults(InTransaction) { ok := false; }
      if !ok {
        assert RunsUpTo(references, plan.operations, 0, current);
        ghost var n: nat :| n <= |plan.operations| && RunsUpTo(references, plan.operations, n, current);
        StageDeletes(w, n);
        return false, {};
      }
      StageAll(w, plan);
      return true, r.value.rows;
    }

    ghost method StageAll(w: WorkflowId, plan: Plan)
      requires Valid() && w in world.flows && world.flows[w].plan == plan && InPhase(world.flows[w], Executing(0, {}))
      requires world.flows[w].task.value.seen in {None, Some(world.shared.checkpoint)}
      requires Runs(references, plan.operations, world.shared.rows)
      modifies this`steps, this`world
      ensures Prolonged(w) && world.shared == old(world.shared)
      ensures world.flows[w] == old(world.flows[w]).(task := Some(Task(
        Executing(|plan.operations|, Erasure(references, plan.operations, world.shared.rows)),
        Some(world.shared.checkpoint))))
    {
      hide Valid;
      StageDeletes(w, |plan.operations|);
      AllGone(references, plan.operations, world.shared.rows);
      LoadCheckpointOnce(w);
    }

    method ReadRows() returns (current: Rows)
      requires Valid()
      ensures current == world.shared.rows
    {
      hide IsRun, Held;
      return rows;
    }

    // -------------------------------------------------------------- entry points

    method FindRow(w: WorkflowId) returns (row: Option<Workflow>)
      requires Valid()
      ensures row.Some? <==> w in world.flows && world.flows[w].row.Some?
      ensures row.Some? ==> row == world.flows[w].row
    {
      hide IsRun;
      if w in world.flows {
        assert FlowIs(world.flows[w], LookUp(workflows, w), LookUp(receipts, w), LookUp(journals, w));
      }
      return if w in workflows then Some(workflows[w]) else None;
    }

    /** Finishes a PARTIAL workflow's file cleanup; any other status is reported back unchanged. */
    method ResumeCommittedWorkflow(w: WorkflowId, faults: Faults) returns (r: Result<Outcome, ErasureError>)
      requires Quiet()
      modifies this`workflows, this`journals, this`marker, this`files, this`steps, this`world
      ensures Quiet()
      ensures r == Err(ErasurePartial) <==> w !in old(world.flows) || old(world.flows[w]).row.None?
      ensures r.Err? ==> r == Err(ErasurePartial) && world == old(world) && steps == old(steps)
      ensures r.Ok? ==>
        Prolonged(w) && ResumedTo(w, old(world.flows[w]), old(world.shared), world.flows[w], world.shared, r.value)
      ensures r.Ok? && HasStatus(old(world.flows[w]), Partial) ==>
        ResumesAs(old(world.flows[w]).journal, faults, r.value)
    {
      hide Valid, ResumesAs, Remembered;
      var row := FindRow(w);
      if row.None? {
        return Err(ErasurePartial);
      }
      if row.value.status != Partial {
        return Ok(Reported(row.value.status));
      }
      KeepsItsConfirmation(w);
      var o := FinishPartial(w, faults);
      RequestKept(old(world.flows), w);
      return Ok(o);
    }

    lemma KeepsItsConfirmation(w: WorkflowId)
      requires Remembered(world.flows, confirmations) && w in world.flows && world.flows[w].row.Some?
      ensures w in confirmations && world.flows[w].row.value.request == RequestOf(confirmations[w])
    {}

    lemma RequestKept(before: map<WorkflowId, Flow>, w: WorkflowId)
      requires Remembered(before, confirmations) && w in before && before[w].row.Some?
      requires world.flows.Keys == before.Keys + {w}
      requires forall v :: v in world.flows && v != w ==> world.flows[v] == before[v]
      requires world.flows[w].row.Some? && world.flows[w].row.value.request == before[w].row.value.request
      ensures Remembered(world.flows, confirmations)
    {
      StillRemembered(before, world.flows, confirmations, w);
    }

    method FinishPartial(w: WorkflowId, faults: Faults) returns (o: Outcome)
      requires Valid() && w in world.flows && HasStatus(world.flows[w], Partial) && world.flows[w].task.None?
      modifies this`workflows, this`journals, this`marker, this`files, this`steps, this`world
      ensures Prolonged(w) && ResumedTo(w, old(world.flows[w]), old(world.shared), world.flows[w], world.shared, o)
      ensures world.flows[w].task.None? && world.flows[w].row.Some?
      ensures world.flows[w].row.value.request == old(world.flows[w]).row.value.request
      ensures ResumesAs(old(world.flows[w]).journal, faults, o)
    {
      hide Valid, PurgesAll;
      Fits(w);
      Pass(w, BeginResume);
      var ok := PurgeFileJournal(w, true, faults);
      if !ok {
        o := LeavePartial(w, faults);
      } else {
        o := AnnounceResumed(w, faults);
      }
    }

    /** A resumed purge that failed leaves the workflow PARTIAL. */
    method LeavePartial(w: WorkflowId, faults: Faults) returns (o: Outcome)
      requires Valid() && w in world.flows && world.flows[w].task.Some?
      requires var p := world.flows[w].task.value.phase; (p.Purging? || p.Purged?) && p.resumed
      modifies this`steps, this`world
      ensures Prolonged(w) && world.flows[w] == old(world.flows[w]).(task := None) && world.shared == old(world.shared)
      ensures o == if faults(LeavingPartial) then Ended else Reported(Partial)
    {
      hide Valid;
      if faults(LeavingPartial) {
        StopHere(w);
        return Ended;
      }
      Pass(w, FailPurge);
      return Reported(Partial);
    }

    method AnnounceResumed(w: WorkflowId, faults: Faults) returns (o: Outcome)
      requires Valid() && w in world.flows && InPhase(world.flows[w], Purged(true)) && world.flows[w].row.Some?
      modifies this`workflows, this`marker, this`steps, this`world
      ensures Prolonged(w)
      ensures o == if faults(BeforeResumed) || faults(AfterResumed) then Ended else Reported(AwaitingBaseline)
      ensures o.Reported? ==> (
        && world.flows[w] == WithStatus(old(world.flows[w]), AwaitingBaseline).(task := None)
        && world.shared == old(world.shared).(marker := Some(Marker(w, old(world.flows[w]).receipt, AwaitingBaseline))))
      ensures o.Ended? ==> (
        && (world.flows[w] == old(world.flows[w]).(task := None)
          || world.flows[w] == WithStatus(old(world.flows[w]), AwaitingBaseline).(task := None))
        && world.shared == old(world.shared))
    {
      hide Valid;
      if faults(BeforeResumed) {
        StopHere(w);
        return Ended;
      }
      CommitResumed(w);
      if faults(AfterResumed) {
        StopHere(w);
        return Ended;
      }
      AnnounceAwaiting(w);
      return Reported(AwaitingBaseline);
    }

    /** The operational completion: refused on SQLite, and unless workflow, receipt and checkpoint row agree. */
    method CompleteOperationalNoResurrection(w: WorkflowId, number: nat, barrier: string, faults: Faults)
      returns (r: Result<Outcome, ErasureError>)
      requires Quiet()
      modifies this`workflows, this`marker, this`steps, this`world
      ensures Quiet()
      ensures r == Err(ModeUnsupported) <==> sqlite
      ensures r.Ok? <==> (
        && !sqlite && w in old(world.flows) && old(world.flows[w]).row.Some?
        && old(world.flows[w]).row.value.status in {AwaitingBaseline, Completed}
        && old(world.flows[w]).row.value.checkpoint == old(world.flows[w]).receipt == Some(number)
        && number == old(world.shared.checkpoint) && |barrier| >= 7 && barrier[..7] == "sha256:")
      ensures r.Err? ==> r in {Err(ModeUnsupported), Err(ErasurePartial)} && world == old(world) && steps == old(steps)
      ensures r.Ok? ==>
        Prolonged(w) && CompletedTo(w, old(world.flows[w]), old(world.shared), world.flows[w], world.shared, r.value)
      ensures r.Ok? && !HasStatus(old(world.flows[w]), Completed) ==>
        CompletesAs(w, old(world.shared), world.flows[w], world.shared, faults, r.value)
    {
      hide Valid, CompletesAs, Remembered;
      if sqlite {
        return Err(ModeUnsupported);
      }
      var row := FindRow(w);
      var agrees := Agrees(w, row, number);
      if !agrees || !("sha256:" <= barrier) {
        return Err(ErasurePartial);
      }
      if row.value.status == Completed {
        return Ok(Reported(Completed));
      }
      if row.value.status != AwaitingBaseline {
        return Err(ErasurePartial);
      }
      var o := FinishCompletion(w, number, faults);
      RequestKept(old(world.flows), w);
      return Ok(o);
    }

    method Agrees(w: WorkflowId, row: Option<Workflow>, number: nat) returns (yes: bool)
      requires Valid()
      requires row.Some? <==> w in world.flows && world.flows[w].row.Some?
      requires row.Some? ==> row == world.flows[w].row
      ensures yes <==> BarrierAgrees(world, w, number)
    {
      if row.None? {
        return false;
      }
      var issued := FindReceipt(w);
      hide IsRun, Held;
      return row.value.checkpoint == Some(number) && issued == Some(number) && checkpoint == number;
    }

    method FinishCompletion(w: WorkflowId, number: nat, faults: Faults) returns (o: Outcome)
      requires Valid() && BarrierAgrees(world, w, number)
      requires HasStatus(world.flows[w], AwaitingBaseline) && world.flows[w].task.None?
      modifies this`workflows, this`marker, this`steps, this`world
      ensures Prolonged(w) && CompletedTo(w, old(world.flows[w]), old(world.shared), world.flows[w], world.shared, o)
      ensures world.flows[w].task.None? && world.flows[w].row.Some?
      ensures world.flows[w].row.value.request == old(world.flows[w]).row.value.request
      ensures CompletesAs(w, old(world.shared), world.flows[w], world.shared, faults, o)
    {
      hide Valid;
      Pass(w, BeginComplete);
      if faults(BeforeCompleted) {
        StopHere(w);
        return Ended;
      }
      CommitCompleted(w);
      if faults(AfterCompleted) {
        StopHere(w);
        return Ended;
      }
      if faults(AtMarkerRemoval) {
        StopHere(w);    // an unreadable marker is left alone
        return Reported(Completed);
      }
      RemoveMatchingMarker(w, number);
      return Reported(Completed);
    }

    method CommitCompleted(w: WorkflowId)
      requires Valid() && w in world.flows && InPhase(world.flows[w], Completing) && world.flows[w].row.Some?
      modifies this`workflows, this`steps, this`world
      ensures Prolonged(w) && world.shared == old(world.shared)
      ensures world.flows[w] == WithStatus(At(old(world.flows[w]), CompletionCommitted), Completed)
    {
      hide IsRun, Held;
      Takes(w, Action.CommitCompleted);
      workflows := workflows[w := workflows[w].(status := Completed)];
    }

    /** Removes the marker if it names this workflow and checkpoint. */
    method RemoveMatchingMarker(w: WorkflowId, number: nat)
      requires Valid() && w in world.flows && InPhase(world.flows[w], CompletionCommitted)
        && world.flows[w].receipt == Some(number)
      modifies this`marker, this`steps, this`world
      ensures Prolonged(w) && world.flows[w] == old(world.flows[w]).(task := None)
      ensures world.shared == old(if MarkerIs(world.shared, w, Some(number)) then world.shared.(marker := None)
        else world.shared)
    {
      hide IsRun, Held;
      Takes(w, Action.RemoveMarker);
      if marker.Some? && marker.value.workflow == w && marker.value.checkpoint == Some(number) {
        marker := None;
      }
    }

    // -------------------------------------------------------------- preview and confirm

    /** Between calls the rest of the application changes rows and stores files, but none of a plan's files again. */
    method Meanwhile(newRows: Rows, uploads: set<Path>)
      requires Quiet() && forall f :: f in uploads ==> !Planned(world, f)
      modifies this`rows, this`files, this`steps, this`world
      ensures Quiet() && steps == old(steps) + [OtherWork(newRows, uploads)]
      ensures world == old(world).(shared := old(world.shared).(rows := newRows,
        files := old(world.shared.files) + uploads))
    {
      hide IsRun, Held;
      RunGrows(origin, steps, world, OtherWork(newRows, uploads));
      steps, world := steps + [OtherWork(newRows, uploads)], Apply(world, OtherWork(newRows, uploads));
      rows, files := newRows, files + uploads;
    }

    /** The public preview: account deletion has its own way in. */
    method Preview(userId: string, scope: string, target: Option<string>, id: PreviewId, token: string, now: int,
        order: nat)
      returns (r: Result<Tally, ErasureError>)
      requires Quiet()
      modifies registry
      ensures scope == ALL_PERSONAL_DATA ==> r == Err(ConfirmationInvalid) && registry.entries == old(registry.entries)
      ensures scope != ALL_PERSONAL_DATA ==>
        PreviewedAs(userId, scope, target, planner(userId, scope, target, world.shared.rows, order), id, token, now, r)
    {
      if scope == ALL_PERSONAL_DATA {
        return Err(ConfirmationInvalid);
      }
      r := CreatePreview(userId, scope, target, id, token, now, order);
    }

    /** A plan that can be built is announced by its impacts and registered by its digest; a refusal leaves the
        registry alone. */
    twostate predicate PreviewedAs(userId: string, scope: string, target: Option<string>, new built: Built,
        id: PreviewId, token: string, now: int, new r: Result<Tally, ErasureError>)
      reads registry
    {
      if (scope == DOCUMENT) != target.Some? then
        r == Err(ConfirmationInvalid) && registry.entries == old(registry.entries)
      else if built.Err? then
        && r == Err(if built.error.NotConfirmable? then ConfirmationInvalid else ErasurePartial)
        && registry.entries == old(registry.entries)
      else
        && r.Ok? && PlanImpacts.AreImpacts(built.value, r.value)
        && id in registry.entries && registry.entries[id] == PreviewEntry(userId, scope, target,
             "\U{6C38}\U{4E45}\U{5220}\U{9664} " + (if target in {None, Some("")} then scope else target.value),
             now + 600, token, PlanDigest.DigestOf(built.value))
        && (forall i :: i != id ==>
              (i in registry.entries <==> i in old(registry.entries) && now < old(registry.entries)[i].expiresAt))
        && (forall i :: i != id && i in registry.entries ==> registry.entries[i] == old(registry.entries)[i])
    }

    method CreatePreview(userId: string, scope: string, target: Option<string>, id: PreviewId, token: string, now: int,
        order: nat)
      returns (r: Result<Tally, ErasureError>)
      requires Quiet()
      modifies registry
      ensures PreviewedAs(userId, scope, target, planner(userId, scope, target, world.shared.rows, order), id, token,
        now, r)
    {
      if (scope == DOCUMENT) != target.Some? {
        return Err(ConfirmationInvalid);
      }
      var current := ReadRows();
      var built := planner(userId, scope, target, current, order);
      if built.Err? {
        return Err(ErrorOf(built.error));
      }
      var impacts := PlanImpacts.Impacts(built.value);
      registry.Register(id, EntryFor(userId, scope, target, built.value, token, now), now);
      return Ok(impacts);
    }

    /** The idempotency lookup. */
    method FindExisting(userRef: UserRef, key: string) returns (found: Option<WorkflowId>)
      requires Valid()
      ensures found.Some? ==> found.value in world.flows && IsFor(world.flows[found.value], userRef, key)
      ensures found.None? ==> forall w :: w in world.flows ==> !IsFor(world.flows[w], userRef, key)
    {
      hide IsRun;
      found := None;
      if exists w ::
        w in workflows && workflows[w].request.userRef == userRef && workflows[w].request.idempotencyKey == key
      {
        var w :| w in workflows && workflows[w].request.userRef == userRef
          && workflows[w].request.idempotencyKey == key;
        assert FlowIs(world.flows[w], LookUp(workflows, w), LookUp(receipts, w), LookUp(journals, w));
        return Some(w);
      }
      forall w | w in world.flows
        ensures !IsFor(world.flows[w], userRef, key)
      {
        assert FlowIs(world.flows[w], LookUp(workflows, w), LookUp(receipts, w), LookUp(journals, w));
      }
    }

    /** Marker first, then the row: the marker is on disk before anything is committed. */
    method AnnounceWorkflow(w: WorkflowId, request: Request, plan: Plan)
      requires Valid() && w !in world.flows && Confirmed(request, plan)
      modifies this`marker, this`steps, this`world
      ensures Prolonged(w)
      ensures world.flows[w] == Flow(None, None, None, Some(Task(Announced(request), None)), plan)
      ensures world.shared == old(world.shared).(marker := Some(Marker(w, None, Running)))
    {
      hide IsRun, Held;
      RunGrows(origin, steps, world, Announce(w, request, plan));
      HeldAfter(world.flows, workflows, receipts, journals, w,
        Flow(None, None, None, Some(Task(Announced(request), None)), plan));
      NothingStored(w);
      steps, world := steps + [Announce(w, request, plan)], Apply(world, Announce(w, request, plan));
      marker := Some(Marker(w, None, Running));
    }

    lemma NothingStored(w: WorkflowId)
      requires Valid() && w !in world.flows
      ensures LookUp(workflows, w).None? && LookUp(receipts, w).None? && LookUp(journals, w).None?
    {
      hide IsRun;
    }

    method InsertWorkflow(w: WorkflowId, request: Request)
      requires Valid() && w in world.flows && InPhase(world.flows[w], Announced(request)) && world.flows[w].row.None?
      requires forall v :: v in world.flows ==> !IsFor(world.flows[v], request.userRef, request.idempotencyKey)
      modifies this`workflows, this`steps, this`world
      ensures Prolonged(w) && world.shared == old(world.shared)
      ensures world.flows[w] == At(old(world.flows[w]), Journaling).(row := Some(Workflow(request, Running, None)))
    {
      hide IsRun, Held;
      Takes(w, Insert);
      workflows := workflows[w := Workflow(request, Running, None)];
    }

    /** A first run: the marker, the row, and then the workflow, fault by fault. */
    twostate predicate StartedAs(w: WorkflowId, request: Request, plan: Plan, faults: Faults, o: Outcome)
      reads this
    {
      if faults(BeforeMarker) then o == Ended && world == old(world) && steps == old(steps)
      else
        && Prolonged(w) && StartedTo(w, request, plan, old(world.shared), world.flows[w], world.shared, o)
        && (world.flows[w].row.None? <==> faults(BeforeRow))
        && (!faults(BeforeRow) ==> RunsAs(plan, old(world.shared.rows), faults, o, world.flows[w].receipt))
        && (Undisturbed(faults) ==> CarriedOut(w, plan, old(world.shared), world, o))
    }

    method StartWorkflow(w: WorkflowId, request: Request, plan: Plan, faults: Faults) returns (o: Outcome)
      requires Valid() && w !in world.flows && Confirmed(request, plan)
      requires forall v :: v in world.flows ==> !IsFor(world.flows[v], request.userRef, request.idempotencyKey)
      modifies this`workflows, this`receipts, this`checkpoint, this`rows, this`journals, this`marker, this`files,
        this`steps, this`world
      ensures Valid() && StartedAs(w, request, plan, faults, o)
    {
      hide Valid, RunsAs, CanRun, ReachesReceipt;
      if faults(BeforeMarker) { return Ended; }
      AnnounceWorkflow(w, request, plan);
      if faults(BeforeRow) {
        StopHere(w);
        return Ended;
      }
      AdmitWorkflow(w, request);
      o := RunWorkflow(w, plan, faults);
    }

    /** The checkpoint row is loaded and the workflow row committed. */
    method AdmitWorkflow(w: WorkflowId, request: Request)
      requires Valid() && w in world.flows && world.flows[w].row.None?
        && world.flows[w].task == Some(Task(Announced(request), None))
      requires forall v :: v in world.flows ==> !IsFor(world.flows[v], request.userRef, request.idempotencyKey)
      modifies this`workflows, this`steps, this`world
      ensures Prolonged(w) && world.shared == old(world.shared)
      ensures world.flows[w] == old(world.flows[w]).(
        row := Some(Workflow(request, Running, None)), task := Some(Task(Journaling, Some(world.shared.checkpoint))))
    {
      hide Valid;
      LoadCheckpointOnce(w);
      InsertWorkflow(w, request);
    }

    /** A further run under the same row, fault by fault. */
    twostate predicate RetriedAs(w: WorkflowId, plan: Plan, faults: Faults, o: Outcome)
      requires w in old(world.flows)
      reads this
    {
      && Prolonged(w)
      && RetriedTo(w, plan, old(world.flows[w]), old(world.shared), world.flows[w], world.shared, o)
      && (faults(BeforeRetry) ==> o == Ended && world == old(world))
      && (!faults(BeforeRetry) ==> RunsAs(plan, old(world.shared.rows), faults, o, world.flows[w].receipt))
      && (Undisturbed(faults) ==> world.flows[w].row.Some? && CarriedOut(w, plan, old(world.shared), world, o))
    }

    method RetryWorkflow(w: WorkflowId, plan: Plan, faults: Faults) returns (o: Outcome)
      requires Valid() && w in world.flows && HasStatus(world.flows[w], FailedRetryable) && world.flows[w].task.None?
      requires Confirmed(world.flows[w].row.value.request, plan)
      modifies this`workflows, this`receipts, this`checkpoint, this`rows, this`journals, this`marker, this`files,
        this`steps, this`world
      ensures RetriedAs(w, plan, faults, o)
    {
      hide Valid, RunsAs, CanRun, ReachesReceipt;
      Fits(w);
      if faults(BeforeRetry) { return Ended; }
      CommitRetry(w, plan);
      o := RunWorkflow(w, plan, faults);
    }

    method CommitRetry(w: WorkflowId, plan: Plan)
      requires Valid() && w in world.flows && HasStatus(world.flows[w], FailedRetryable) && world.flows[w].task.None?
      requires Confirmed(world.flows[w].row.value.request, plan)
      modifies this`workflows, this`steps, this`world
      ensures Prolonged(w) && world.shared == old(world.shared)
      ensures world.flows[w] == WithStatus(old(world.flows[w]), Running).(task := Some(Task(Journaling, None)),
        plan := plan)
    {
      hide IsRun, Held;
      Takes(w, BeginRetry(plan));
      workflows := workflows[w := workflows[w].(status := Running)];
    }

    /** What one confirmation did: refused with the state unchanged, or the workflow that this user has confirmed
        under this key repeated, or the one workflow for it started on a plan with the previewed digest. */
    twostate predicate ConfirmedAs(e: PreviewEntry, phrase: string, key: string, new built: Built, faults: Faults,
                                   newId: WorkflowId, new r: Result<Outcome, ErasureError>, w: WorkflowId)
      reads this
    {
      && (forall error :: r == Err(error) <==>
            RefusedWith(old(world), old(confirmations), e, phrase, key, built, error))
      && (r.Err? ==> world == old(world) && steps == old(steps) && confirmations == old(confirmations))
      && (r.Ok? && w in old(world.flows) ==>
            && ConfirmedBy(old(world.flows), old(confirmations), e.userId, key, w)
            && RepeatedAs(w, built, faults, r.value) && confirmations == old(confirmations))
      && (r.Ok? && w !in old(world.flows) ==>
            && w == newId && built.Ok?
            && (forall v :: !ConfirmedBy(old(world.flows), old(confirmations), e.userId, key, v))
            && StartedAs(w, RequestOf(ConfirmationOf(e, phrase, key)), built.value, faults, r.value)
            && confirmations == old(confirmations)[w := ConfirmationOf(e, phrase, key)])
      && (r.Ok? ==> (
            && w in confirmations && confirmations[w].userId == e.userId && confirmations[w].key == key
            && confirmations[w].planDigest == e.planDigest && confirmations[w].phrase == phrase))
    }

    /** Confirms a preview that is live for this user and token. */
    method Confirm(userId: string, previewId: PreviewId, token: string, phrase: string, key: string, now: int,
        newId: WorkflowId, order: nat, faults: Faults)
      returns (r: Result<Outcome, ErasureError>, ghost w: WorkflowId)
      requires Quiet() && newId !in world.flows
      modifies this, registry
      ensures Quiet() && registry.entries == old(registry.Live(now))
      ensures r == Err(PreviewExpired) <==> old(registry.Lookup(previewId, userId, token, now)).None?
      ensures r == Err(PreviewExpired) ==>
        world == old(world) && steps == old(steps) && confirmations == old(confirmations)
      ensures old(registry.Lookup(previewId, userId, token, now)).Some? ==>
        var e := old(registry.entries)[previewId];
        && e.userId == userId && e.token == token && now < e.expiresAt
        && ConfirmedAs(e, phrase, key, planner(userId, e.scope, e.target, old(world.shared.rows), order), faults, newId,
             r, w)
    {
      hide Quiet, RefusedWith, RepeatedTo, RetriedTo, StartedTo, RunsAs, CarriedOut, ResumesAs, Valid;
      w := newId;
      var found := registry.Get(previewId, userId, token, now);
      if found.None? {
        return Err(PreviewExpired), w;
      }
      r, w := ConfirmEntry(found.value, phrase, key, newId, order, faults);
    }

    method ConfirmEntry(e: PreviewEntry, phrase: string, key: string, newId: WorkflowId, order: nat, faults: Faults)
      returns (r: Result<Outcome, ErasureError>, ghost w: WorkflowId)
      requires Quiet() && newId !in world.flows
      modifies this
      ensures Quiet() && r != Err(PreviewExpired)
      ensures ConfirmedAs(e, phrase, key, planner(e.userId, e.scope, e.target, old(world.shared.rows), order), faults,
        newId, r, w)
    {
      hide Valid, RefusedWith, RepeatedTo, RetriedTo, StartedTo, RunsAs, CarriedOut, ResumesAs, Remembered;
      w := newId;
      if key == "" || phrase != e.phrase {
        FormIsRefusedWith(world, confirmations, e, phrase, key,
          planner(e.userId, e.scope, e.target, world.shared.rows, order));
        return Err(ConfirmationInvalid), w;
      }
      var current := ReadRows();
      var built := planner(e.userId, e.scope, e.target, current, order);
      var existing := FindConfirmed(e.userId, key);
      if existing.Some? {
        w := existing.value;
        RepetitionIsRefusedWith(world, confirmations, e, phrase, key, built, w);
        r := RepeatWorkflow(existing.value, e, phrase, key, built, faults);
        return;
      }
      FirstIsRefusedWith(world, confirmations, e, phrase, key, built);
      r := ConfirmFirst(e, phrase, key, newId, built, faults);
    }

    /** The look-up meets what this user has confirmed under this key, and nothing of another user. */
    method FindConfirmed(userId: string, key: string) returns (found: Option<WorkflowId>)
      requires Quiet()
      ensures found.Some? ==> forall v :: ConfirmedBy(world.flows, confirmations, userId, key, v) <==> v == found.value
      ensures found.None? ==> forall v :: !ConfirmedBy(world.flows, confirmations, userId, key, v)
    {
      hide Valid;
      found := FindExisting(UserRef(userId), key);
      if found.Some? {
        KeysAreUnique(UserRef(userId), key, found.value);
      }
      forall v | v in world.flows
        ensures IsFor(world.flows[v], UserRef(userId), key) <==>
          ConfirmedBy(world.flows, confirmations, userId, key, v)
      {
        LookUpMeetsIff(world.flows, confirmations, userId, key, v);
      }
    }

    /** The key is new: the plan is checked against the previewed digest and started. */
    method ConfirmFirst(e: PreviewEntry, phrase: string, key: string, newId: WorkflowId, built: Built, faults: Faults)
      returns (r: Result<Outcome, ErasureError>)
      requires Quiet() && newId !in world.flows
      requires forall v :: !ConfirmedBy(world.flows, confirmations, e.userId, key, v)
      modifies this
      ensures Quiet()
      ensures forall error :: r == Err(error) <==> NoPlanFor(built, e.planDigest, error)
      ensures r.Err? ==> world == old(world) && steps == old(steps) && confirmations == old(confirmations)
      ensures r.Ok? ==> (
        && built.Ok? && StartedAs(newId, RequestOf(ConfirmationOf(e, phrase, key)), built.value, faults, r.value)
        && confirmations == old(confirmations)[newId := ConfirmationOf(e, phrase, key)])
    {
      hide Valid;
      if built.Err? {
        return Err(ErrorOf(built.error));
      }
      if PlanDigest.DigestOf(built.value) != e.planDigest {
        return Err(ConfirmationInvalid);
      }
      var o := Begin(newId, ConfirmationOf(e, phrase, key), built.value, faults);
      r := Ok(o);
    }

    ghost method Note(w: WorkflowId, c: Confirmation)
      requires Quiet() && w !in world.flows
      modifies this`confirmations
      ensures Quiet() && confirmations == old(confirmations)[w := c]
    {
      hide IsRun, Held;
      confirmations := confirmations[w := c];
    }

    method Begin(w: WorkflowId, c: Confirmation, plan: Plan, faults: Faults) returns (o: Outcome)
      requires Quiet() && w !in world.flows && PlanDigest.DigestOf(plan) == c.planDigest
      requires forall v :: !ConfirmedBy(world.flows, confirmations, c.userId, c.key, v)
      modifies this
      ensures Quiet() && StartedAs(w, RequestOf(c), plan, faults, o) && confirmations == old(confirmations)[w := c]
    {
      hide Valid, RunsAs, CarriedOut;
      forall v | v in world.flows
        ensures !IsFor(world.flows[v], UserRef(c.userId), c.key)
      {
        LookUpMeetsIff(world.flows, confirmations, c.userId, c.key, v);
      }
      Note(w, c);
      o := StartWorkflow(w, RequestOf(c), plan, faults);
      if !faults(BeforeMarker) {
        StartEndsQuietly(w, RequestOf(c), plan, old(world.shared), world.flows[w], world.shared, o);
        StillRemembered(old(world.flows), world.flows, confirmations, w);
      }
    }

    lemma KeysAreUnique(userRef: UserRef, key: string, w: WorkflowId)
      requires Valid() && w in world.flows && IsFor(world.flows[w], userRef, key)
      ensures forall v :: v in world.flows && IsFor(world.flows[v], userRef, key) ==> v == w
    {
      RunFits(origin, steps, world);
    }

    /** PARTIAL is resumed, FAILED_RETRYABLE run again, everything else reported unchanged. */
    twostate predicate RepeatedAs(w: WorkflowId, new built: Built, faults: Faults, o: Outcome)
      requires w in old(world.flows)
      reads this
    {
      && Prolonged(w)
      && RepeatedTo(w, built, old(world.flows[w]), old(world.shared), world.flows[w], world.shared, o)
      && (HasStatus(old(world.flows[w]), Partial) ==> ResumesAs(old(world.flows[w]).journal, faults, o))
      && (HasStatus(old(world.flows[w]), FailedRetryable) ==> built.Ok? && RetriedAs(w, built.value, faults, o))
      && (!HasStatus(old(world.flows[w]), Partial) && !HasStatus(old(world.flows[w]), FailedRetryable) ==>
            world == old(world) && o.Reported? && HasStatus(world.flows[w], o.status))
    }

    method RepeatWorkflow(w: WorkflowId, e: PreviewEntry, phrase: string, key: string, built: Built, faults: Faults)
      returns (r: Result<Outcome, ErasureError>)
      requires Quiet() && ConfirmedBy(world.flows, confirmations, e.userId, key, w)
      modifies this
      ensures Quiet() && confirmations == old(confirmations)
      ensures forall error :: r == Err(error) <==>
        if confirmations[w] != ConfirmationOf(e, phrase, key) then error == ConfirmationInvalid
        else HasStatus(old(world.flows[w]), FailedRetryable) && NoPlanFor(built, e.planDigest, error)
      ensures r.Err? ==> world == old(world) && steps == old(steps)
      ensures r.Ok? ==> confirmations[w] == ConfirmationOf(e, phrase, key) && RepeatedAs(w, built, faults, r.value)
    {
      hide Valid, Remembered, ResumesAs, RetriedTo, RunsAs, CarriedOut;
      KeepsItsConfirmation(w);
      RequestsAgreeIff(confirmations[w], ConfirmationOf(e, phrase, key));
      var row := FindRow(w);
      if row.value.request.digest != RequestOf(ConfirmationOf(e, phrase, key)).digest {
        return Err(ConfirmationInvalid);
      }
      if row.value.status == Partial {
        r := ResumeCommittedWorkflow(w, faults);
        return;
      }
      if row.value.status != FailedRetryable {
        return Ok(Reported(row.value.status));
      }
      if built.Err? {
        return Err(ErrorOf(built.error));
      }
      if PlanDigest.DigestOf(built.value) != e.planDigest {
        return Err(ConfirmationInvalid);
      }
      var o := RunAgain(w, built.value, faults);
      return Ok(o);
    }

    method RunAgain(w: WorkflowId, plan: Plan, faults: Faults) returns (o: Outcome)
      requires Quiet() && w in world.flows && HasStatus(world.flows[w], FailedRetryable)
      requires PlanDigest.DigestOf(plan) == world.flows[w].row.value.request.digest.plan
      modifies this`workflows, this`receipts, this`checkpoint, this`rows, this`journals, this`marker, this`files,
        this`steps, this`world
      ensures Quiet() && RetriedAs(w, plan, faults, o)
    {
      hide Valid, RunsAs, CarriedOut, Remembered;
      KeepsItsConfirmation(w);
      o := RetryWorkflow(w, plan, faults);
      RetryEndsQuietly(w, plan, old(world.flows[w]), old(world.shared), world.flows[w], world.shared, o);
      RequestKept(old(world.flows), w);
    }

    /** The account deletion: preview and confirmation in one call.  Over unchanged data the plan digest never refuses
        it, in whatever order the database answers: once a plan can be built and the preview has not expired, it is
        refused exactly when this user has used its key before for another request.  Under a new key, with nothing
        striking, the plan is carried out. */
    method ExecuteAuthorizedAccountDeletion(userId: string, accountRequestId: string, id: PreviewId, token: string,
        now: int, later: int, newId: WorkflowId, order: nat, laterOrder: nat, faults: Faults)
      returns (r: Result<Outcome, ErasureError>, ghost w: WorkflowId)
      requires Quiet() && newId !in world.flows && OrderOnly(planner)
      modifies this, registry
      ensures Quiet()
      ensures r.Err? ==> world == old(world) && steps == old(steps) && confirmations == old(confirmations)
      ensures var built := planner(userId, ALL_PERSONAL_DATA, None, old(world.shared.rows), order);
        if built.Err? then r == Err(if built.error.NotConfirmable? then ConfirmationInvalid else ErasurePartial)
        else if later >= now + 600 then r == Err(PreviewExpired)
        else
          forall error :: r == Err(error) <==>
            error == ConfirmationInvalid && KeyUsedOtherwise(old(world), old(confirmations),
              Confirmation(userId, "account-deletion:" + accountRequestId, PlanDigest.DigestOf(built.value),
                ALL_PERSONAL_DATA, None, "\U{6C38}\U{4E45}\U{5220}\U{9664} " + ALL_PERSONAL_DATA))
      ensures r.Ok? && Undisturbed(faults) && w == newId ==>
        var built := planner(userId, ALL_PERSONAL_DATA, None, old(world.shared.rows), laterOrder);
        && w in world.flows && world.flows[w].row.Some?
        && built.Ok? && CarriedOut(w, built.value, old(world.shared), world, r.value)
      ensures r.Ok? && w != newId ==>
        ConfirmedBy(old(world.flows), old(confirmations), userId, "account-deletion:" + accountRequestId, w)
    {
      hide Valid, Remembered, CarriedOut, RunsAs, StartedTo;
      w := newId;
      ghost var rows := world.shared.rows;
      ghost var built := planner(userId, ALL_PERSONAL_DATA, None, rows, order);
      var preview := CreatePreview(userId, ALL_PERSONAL_DATA, None, id, token, now, order);
      if preview.Err? {
        return Err(preview.error), w;
      }
      ghost var e := EntryFor(userId, ALL_PERSONAL_DATA, None, built.value, token, now);
      assert registry.Lookup(id, userId, token, later) == if later < e.expiresAt then Some(e) else None;
      UnchangedDataIsNotRefused(world, confirmations, planner, e, rows, order, laterOrder,
        "account-deletion:" + accountRequestId);
      r, w := Confirm(userId, id, token, PhraseFor(ALL_PERSONAL_DATA, None), "account-deletion:" + accountRequestId,
        later, newId, laterOrder, faults);
    }
  }

  function EntryFor(userId: string, scope: string, target: Option<string>, plan: Plan, token: string,
      now: int): PreviewEntry {
    PreviewEntry(userId, scope, target, PhraseFor(scope, target), now + PREVIEW_TTL, token, PlanDigest.DigestOf(plan))
  }

  /** This user has confirmed something else under this key. */
  ghost predicate KeyUsedOtherwise(s: World, confirmations: map<WorkflowId, Confirmation>, c: Confirmation) {
    exists w :: ConfirmedBy(s.flows, confirmations, c.userId, c.key, w) && confirmations[w] != c
  }

  /** A first confirmation, or a retry of the same one. */
  ghost predicate PlanNeeded(s: World, confirmations: map<WorkflowId, Confirmation>, c: Confirmation) {
    forall w :: ConfirmedBy(s.flows, confirmations, c.userId, c.key, w) ==>
      confirmations[w] == c && HasStatus(s.flows[w], FailedRetryable)
  }

  /** No plan can be built, or the data no longer gives the previewed one. */
  predicate NoPlanFor(built: Built, planDigest: PlanDigest.Digest, error: ErasureError) {
    match built
    case Err(NotConfirmable) => error == ConfirmationInvalid
    case Err(NotAttributable) => error == ErasurePartial
    case Ok(plan) => PlanDigest.DigestOf(plan) != planDigest && error == ConfirmationInvalid
  }

  /** Why a confirmation is refused.  What other users have confirmed has no part in it. */
  ghost predicate RefusedWith(s: World, confirmations: map<WorkflowId, Confirmation>, e: PreviewEntry, phrase: string,
                              key: string, built: Built, error: ErasureError) {
    var c := ConfirmationOf(e, phrase, key);
    if key == "" || phrase != e.phrase then error == ConfirmationInvalid
    else
      || (error == ConfirmationInvalid && KeyUsedOtherwise(s, confirmations, c))
      || (PlanNeeded(s, confirmations, c) && NoPlanFor(built, e.planDigest, error))
  }

  lemma FormIsRefusedWith(s: World, confirmations: map<WorkflowId, Confirmation>, e: PreviewEntry, phrase: string,
                          key: string, built: Built)
    requires key == "" || phrase != e.phrase
    ensures forall error ::
      RefusedWith(s, confirmations, e, phrase, key, built, error) <==> error == ConfirmationInvalid
  {}

  lemma FirstIsRefusedWith(s: World, confirmations: map<WorkflowId, Confirmation>, e: PreviewEntry, phrase: string,
                           key: string, built: Built)
    requires key != "" && phrase == e.phrase
    requires forall v :: !ConfirmedBy(s.flows, confirmations, e.userId, key, v)
    ensures forall error ::
      RefusedWith(s, confirmations, e, phrase, key, built, error) <==> NoPlanFor(built, e.planDigest, error)
  {}

  lemma RepetitionIsRefusedWith(s: World, confirmations: map<WorkflowId, Confirmation>, e: PreviewEntry,
                                phrase: string, key: string, built: Built, w: WorkflowId)
    requires key != "" && phrase == e.phrase
    requires forall v :: ConfirmedBy(s.flows, confirmations, e.userId, key, v) <==> v == w
    ensures ConfirmedBy(s.flows, confirmations, e.userId, key, w)
    ensures forall error :: RefusedWith(s, confirmations, e, phrase, key, built, error) <==>
      if confirmations[w] != ConfirmationOf(e, phrase, key) then error == ConfirmationInvalid
      else HasStatus(s.flows[w], FailedRetryable) && NoPlanFor(built, e.planDigest, error)
  {
    hide NoPlanFor;
    assert ConfirmedBy(s.flows, confirmations, e.userId, key, w);
  }

  /** Over unchanged rows the digest check lets every confirmation through, whatever the order of the answers. */
  lemma UnchangedDataIsNotRefused(s: World, confirmations: map<WorkflowId, Confirmation>, planner: Planner,
      e: PreviewEntry, rows: Rows, order: nat, laterOrder: nat, key: string)
    requires OrderOnly(planner) && key != ""
    requires planner(e.userId, e.scope, e.target, rows, order).Ok?
    requires e.planDigest == PlanDigest.DigestOf(planner(e.userId, e.scope, e.target, rows, order).value)
    ensures forall error ::
      RefusedWith(s, confirmations, e, e.phrase, key, planner(e.userId, e.scope, e.target, rows, laterOrder), error)
      <==> error == ConfirmationInvalid && KeyUsedOtherwise(s, confirmations, ConfirmationOf(e, e.phrase, key))
  {
    var p, q := planner(e.userId, e.scope, e.target, rows, order),
      planner(e.userId, e.scope, e.target, rows, laterOrder);
    assert SameButForOrder(p, q);
    PlanDigest.ReorderingKeepsTheDigest(p.value, q.value);
    assert forall error :: !NoPlanFor(q, e.planDigest, error);
  }

  /** How the purge behind the receipt ends, fault by fault. */
  ghost predicate FinishesAs(journal: Option<seq<Path>>, faults: Faults, o: Outcome) {
    o == if PurgesAll(journal, faults) && !faults(AtMarker) then Reported(AwaitingBaseline)
         else if RecoversQuietly(faults) then Reported(Partial) else Ended
  }

  /** How a resume of a PARTIAL workflow ends, fault by fault. */
  ghost predicate ResumesAs(journal: Option<seq<Path>>, faults: Faults, o: Outcome) {
    o == if PurgesAll(journal, faults)
         then if faults(BeforeResumed) || faults(AfterResumed) then Ended else Reported(AwaitingBaseline)
         else if faults(LeavingPartial) then Ended else Reported(Partial)
  }

  /** How a completion ends, fault by fault: the marker goes only if it names this workflow and its receipt. */
  ghost predicate CompletesAs(w: WorkflowId, before: Shared, g: Flow, after: Shared, faults: Faults, o: Outcome) {
    && o == (if faults(BeforeCompleted) || faults(AfterCompleted) then Ended else Reported(Completed))
    && (HasStatus(g, Completed) <==> !faults(BeforeCompleted))
    && after.marker == if o.Reported? && !faults(AtMarkerRemoval) && before.marker.Some?
         && before.marker.value.workflow == w && before.marker.value.checkpoint == g.receipt then None
       else before.marker
  }

  /** Where a repetition can end: PARTIAL is resumed, FAILED_RETRYABLE retried, everything else reported unchanged. */
  ghost predicate RepeatedTo(w: WorkflowId, built: Built, f: Flow, sh: Shared, g: Flow, after: Shared, o: Outcome) {
    if HasStatus(f, FailedRetryable) then built.Ok? && RetriedTo(w, built.value, f, sh, g, after, o)
    else ResumedTo(w, f, sh, g, after, o)
  }

  predicate IsFor(f: Flow, userRef: UserRef, key: string) {
    f.row.Some? && f.row.value.request.userRef == userRef && f.row.value.request.idempotencyKey == key
  }

  /** Where a first confirmation can end. */
  ghost predicate StartedTo(w: WorkflowId, request: Request, plan: Plan, sh: Shared, g: Flow, after: Shared,
      o: Outcome) {
    var announced := sh.(marker := Some(Marker(w, None, Running)));
    if g.row.None? then o == Ended && g == Flow(None, None, None, None, plan) && after == announced
    else RanTo(w, Flow(Some(Workflow(request, Running, None)), None, None, None, plan), announced, g, after, o)
  }

  /** Where a retry can end. */
  ghost predicate RetriedTo(w: WorkflowId, plan: Plan, f: Flow, sh: Shared, g: Flow, after: Shared, o: Outcome) {
    && f.row.Some?
    && ((o == Ended && g == f && after == sh) || RanTo(w, WithStatus(f, Running).(plan := plan), sh, g, after, o))
  }

  lemma RunEndsQuietly(w: WorkflowId, f: Flow, sh: Shared, g: Flow, after: Shared, o: Outcome)
    requires f.row.Some? && RanTo(w, f, sh, g, after, o)
    ensures g.task.None? && g.row.Some? && g.row.value.request == f.row.value.request
  {}

  lemma StartEndsQuietly(w: WorkflowId, request: Request, plan: Plan, sh: Shared, g: Flow, after: Shared, o: Outcome)
    requires StartedTo(w, request, plan, sh, g, after, o)
    ensures g.task.None? && (g.row.Some? ==> g.row.value.request == request)
  {}

  lemma RetryEndsQuietly(w: WorkflowId, plan: Plan, f: Flow, sh: Shared, g: Flow, after: Shared, o: Outcome)
    requires f.task.None? && RetriedTo(w, plan, f, sh, g, after, o)
    ensures g.task.None? && g.row.Some? && g.row.value.request == f.row.value.request
  {}

  predicate BarrierAgrees(s: World, w: WorkflowId, number: nat) {
    && w in s.flows && s.flows[w].row.Some? && s.flows[w].row.value.checkpoint == Some(number)
    && s.flows[w].receipt == Some(number) && s.shared.checkpoint == number
  }

  /** Where the completion can end; nothing but the status and the matching marker changes. */
  ghost predicate CompletedTo(w: WorkflowId, f: Flow, sh: Shared, g: Flow, after: Shared, o: Outcome) {
    && f.row.Some?
    && if HasStatus(f, Completed) then o == Reported(Completed) && g == f && after == sh
       else if o == Reported(Completed) then
         && g == WithStatus(f, Completed)
         && (after == sh || (MarkerIs(sh, w, f.receipt) && after == sh.(marker := None)))
       else o == Ended && (g == f || g == WithStatus(f, Completed)) && after == sh
  }

  /** Where a resumed purge can end.  Receipt, checkpoint and rows never change. */
  ghost predicate ResumedTo(w: WorkflowId, f: Flow, sh: Shared, g: Flow, after: Shared, o: Outcome) {
    && f.row.Some? && g.row.Some?
    && if !HasStatus(f, Partial) then
         o == Reported(f.row.value.status) && g == f && after == sh
       else if o == Reported(AwaitingBaseline) then
         && g == WithStatus(f, AwaitingBaseline).(journal := None)
         && after == sh.(files := sh.files - Elements(f.plan.files),
           marker := Some(Marker(w, f.receipt, AwaitingBaseline)))
       else
         && sh.files - Elements(f.plan.files) <= after.files <= sh.files && after == sh.(files := after.files)
         && if o == Reported(Partial) then g == f.(journal := g.journal)
            else o == Ended && (g == f.(journal := g.journal) || g == WithStatus(f, AwaitingBaseline).(journal := None))
  }

  /** PARTIAL recorded and announced, or an end before or after recording it. */
  ghost predicate PartialOrEnded(w: WorkflowId, f: Flow, sh: Shared, g: Flow, after: Shared, o: Outcome)
    requires f.row.Some?
  {
    if o.Ended? then
      (g == f.(task := None) || g == WithStatus(f, Partial).(task := None)) && after == sh
    else
      && o == Reported(Partial) && g == WithStatus(f, Partial).(task := None)
      && after == sh.(marker := Some(Marker(w, f.receipt, Partial)))
  }

  /** Where the purge behind the receipt can end: files gone and AWAITING announced, PARTIAL, or stopped. */
  ghost predicate FinishedTo(w: WorkflowId, f: Flow, sh: Shared, g: Flow, after: Shared, o: Outcome)
    requires f.row.Some?
  {
    && g.row.Some? && sh.files - Elements(f.plan.files) <= after.files <= sh.files
    && if o == Reported(AwaitingBaseline) then
         && g == WithStatus(f, AwaitingBaseline).(journal := None, task := None)
         && after == sh.(files := sh.files - Elements(f.plan.files),
           marker := Some(Marker(w, f.receipt, AwaitingBaseline)))
       else if o == Reported(Partial) then
         && g == WithStatus(f, Partial).(journal := g.journal, task := None)
         && after == sh.(files := after.files, marker := Some(Marker(w, f.receipt, Partial)))
       else
         && o == Ended
         && (g == f.(journal := g.journal, task := None)
           || g == WithStatus(f, Partial).(journal := g.journal, task := None))
         && after == sh.(files := after.files)
  }

  /** Where one run of a workflow can end: before the receipt with nothing deleted, or behind it with exactly the
      planned rows gone, one checkpoint further. */
  ghost predicate RanTo(w: WorkflowId, f: Flow, sh: Shared, g: Flow, after: Shared, o: Outcome)
    requires f.row.Some?
  {
    if g.receipt.None? then FailedTo(w, f, sh, g, after, o)
    else FinishedTo(w, Receipted(f, sh.checkpoint + 1), Erased(f, sh), g, after, o)
  }

  predicate IsInternal(a: Action) {
    a.LoadCheckpoint? || a.DeleteNext? || a.RollBack? || a.FailPurge? || a.BeginResume? || a.BeginComplete?
  }

  lemma InternalKeepsTheStores(w: WorkflowId, f: Flow, sh: Shared, a: Action)
    requires MayAct(f, sh, a) && IsInternal(a)
    ensures var g := FlowAfter(f, sh, a); g.row == f.row && g.receipt == f.receipt && g.journal == f.journal
    ensures SharedAfter(w, f, sh, a) == sh && !a.Insert? && !a.CommitReceipt?
  {}

  /** The row as the receipt's commit leaves it. */
  function Receipted(f: Flow, checkpoint: nat): Flow
    requires f.row.Some?
  {
    f.(receipt := Some(checkpoint),
      row := Some(f.row.value.(status := AwaitingBaseline, checkpoint := Some(checkpoint))))
  }

  /** The shared stores as the receipt's commit leaves them: exactly the planned rows and what they drag along are
      gone, and no file yet. */
  ghost function Erased(f: Flow, sh: Shared): Shared {
    sh.(checkpoint := sh.checkpoint + 1, rows := sh.rows - Erasure(sh.references, f.plan.operations, sh.rows))
  }

  /** A failure before the receipt: nothing is deleted, and the marker stays. */
  ghost predicate FailedTo(w: WorkflowId, f: Flow, sh: Shared, g: Flow, after: Shared, o: Outcome)
    requires f.row.Some?
  {
    if o.Ended? then
      && g.row.Some? && g == f.(row := g.row, journal := g.journal, task := None) && after == sh
      && (g.row == f.row || g.row == WithStatus(f, FailedRetryable).row)
    else
      && o.status == FailedRetryable && g == WithStatus(f, FailedRetryable).(journal := None, task := None)
      && after == sh.(marker := Some(Marker(w, None, FailedRetryable)))
  }

  ghost predicate PurgedTo(f: Flow, sh: Shared, g: Flow, after: Shared, resumed: bool, ok: bool) {
    && g.task.Some? && g == f.(journal := g.journal, task := g.task) && after == sh.(files := after.files)
    && if ok then g.journal.None? && g.task.value.phase == Purged(resumed)
      && after.files == sh.files - Elements(f.plan.files)
       else
         && ((g.task.value.phase.Purging? && g.task.value.phase.resumed == resumed)
           || g.task.value.phase == Purged(resumed))
         && sh.files - Elements(f.plan.files) <= after.files <= sh.files
  }

  lemma JournalListsThePlan(f: Flow, sh: Shared)
    requires FlowFits(f, sh) && f.receipt.Some?
    ensures f.journal.Some? ==> f.journal.value == f.plan.files
    ensures f.journal.None? ==> sh.files - Elements(f.plan.files) == sh.files
  {}

  /** Once the receipt is there, confirming again under the same key deletes no further row and issues nothing. */
  lemma RepetitionDeletesNothingMore(w: WorkflowId, built: Built, f: Flow, sh: Shared, g: Flow, after: Shared,
      o: Outcome)
    requires FlowFits(f, sh) && f.receipt.Some? && RepeatedTo(w, built, f, sh, g, after, o)
    ensures after.rows == sh.rows && after.checkpoint == sh.checkpoint
    ensures g.receipt == f.receipt && g.plan == f.plan && o != Reported(FailedRetryable)
  {}

  /** However a first confirmation or a retry ends, the rows are those before it or exactly those without the rows
      of a plan with the confirmed digest; the checkpoint moves in the latter case only, and no file goes before. */
  lemma ErasureIsAllOrNothing(w: WorkflowId, f: Flow, sh: Shared, g: Flow, after: Shared, o: Outcome)
    requires f.row.Some? && RanTo(w, f, sh, g, after, o)
    ensures after.rows
         == (if g.receipt.Some? then sh.rows - Erasure(sh.references, f.plan.operations, sh.rows) else sh.rows)
    ensures after.checkpoint == sh.checkpoint + (if g.receipt.Some? then 1 else 0)
    ensures g.receipt.Some?
      ==> g.receipt.value == after.checkpoint && g.row.value.checkpoint == g.receipt && Committed(g.row.value.status)
    ensures g.receipt.None? ==> after.files == sh.files
    ensures after.files <= sh.files && sh.files - after.files <= Elements(f.plan.files)
    ensures o == Reported(AwaitingBaseline) ==> after.files !! Elements(f.plan.files) && g.journal.None?
    ensures sh.marker.Some? ==> after.marker.Some?
  {}
}
