/** The durable erasure protocol as a transition system over its two stores: the committed database and the
    files.  Workflows advance independently, one step at a time; a step is one database commit or one file-system
    effect, so every point where the process can be stopped lies between two steps. */
module ErasureWorkflow {
  import opened Prelude
  import opened DeletionPlans
  import opened ForeignKeys
  import PlanDigest

  type WorkflowId = string

  datatype Status = Running | FailedRetryable | AwaitingBaseline | Partial | Completed

  /** The truncated SHA-256 of a user id, taken to be injective. */
  datatype UserRef = UserRef(userId: string)

  /** SHA-256 over plan digest, user, scope, target and phrase, taken to be injective. */
  datatype RequestDigest = RequestDigest(
    plan: PlanDigest.Digest, userRef: UserRef, scope: string, target: Option<string>, phrase: string)

  /** What the workflow row keeps of the confirmed request. */
  datatype Request = Request(userRef: UserRef, idempotencyKey: string, digest: RequestDigest)

  datatype Workflow = Workflow(request: Request, status: Status, checkpoint: Option<nat>)

  /** The fail-closed marker: one file for the whole installation. */
  datatype Marker = Marker(workflow: WorkflowId, checkpoint: Option<nat>, status: Status)

  /** How far the running coroutine of a workflow has come. */
  datatype Phase =
    | Announced(request: Request)                 // marker written, row not yet committed
    | Journaling                                  // row committed as RUNNING
    | Executing(next: nat, staged: Rows)          // deletes staged in the open transaction
    | RolledBack | Discarded | FailureCommitted   // the path after an exception before the receipt
    | Purging(next: nat, resumed: bool)           // receipt committed; unlinking the journal's files
    | Purged(resumed: bool)                       // journal file removed
    | PurgeFailed | PartialCommitted              // the path after an exception behind the receipt
    | ResumeCommitted
    | Completing | CompletionCommitted

  /** `seen` is the checkpoint row as this session loaded it; the identity map may keep it while others commit. */
  datatype Task = Task(phase: Phase, seen: Option<nat>)

  /** Everything kept about one workflow: its row, its receipt, its journal file, the coroutine working on it, and,
      as history, the plan it last set out to run. */
  datatype Flow = Flow(
    row: Option<Workflow>, receipt: Option<nat>, journal: Option<seq<Path>>, task: Option<Task>, plan: Plan)

  /** What the workflows share: checkpoint row, subject rows with the schema's references, marker and document files. */
  datatype Shared = Shared(
    checkpoint: nat, rows: Rows, references: References, marker: Option<Marker>, files: set<Path>)

  datatype World = World(flows: map<WorkflowId, Flow>, shared: Shared)

  datatype Action =
    | Insert | BeginRetry(plan: Plan) | LoadCheckpoint | WriteJournal | DeleteNext | CommitReceipt
    | RollBack | DiscardJournal | CommitFailure | AnnounceFailure
    | UnlinkNext | DropJournal | FailPurge | CommitPartial | AnnouncePartial | AnnounceAwaiting
    | BeginResume | CommitResumed
    | BeginComplete | CommitCompleted | RemoveMarker
    | Stop                                        // hard stop, or an exception nobody catches

  datatype Step =
    | Announce(w: WorkflowId, request: Request, plan: Plan)
    | Act(w: WorkflowId, action: Action)
    | OtherWork(rows: Rows, uploads: set<Path>)   // the rest of the application

  function Initial(rows: Rows, references: References, files: set<Path>): World {
    World(map[], Shared(0, rows, references, None, files))
  }

  predicate BeforeReceipt(p: Phase) {
    p.Announced? || p.Journaling? || p.Executing?
  }

  predicate HasStatus(f: Flow, status: Status) {
    f.row.Some? && f.row.value.status == status
  }

  predicate InPhase(f: Flow, p: Phase) {
    f.task.Some? && f.task.value.phase == p
  }

  predicate SameKey(a: Request, b: Request) {
    a.userRef == b.userRef && a.idempotencyKey == b.idempotencyKey
  }

  /** The plan built at confirmation has the digest of the previewed one. */
  predicate Confirmed(request: Request, plan: Plan) {
    PlanDigest.DigestOf(plan) == request.digest.plan
  }

  /** What the next DELETE removes besides the rows staged so far. */
  function NextSwept(f: Flow, sh: Shared): Rows
    requires f.task.Some? && f.task.value.phase.Executing? && f.task.value.phase.next < |f.plan.operations|
  {
    Swept(sh.references, sh.rows - f.task.value.phase.staged, f.plan.operations[f.task.value.phase.next])
  }

  predicate MayAct(f: Flow, sh: Shared, a: Action) {
    match a
    case Insert => f.task.Some? && f.task.value.phase.Announced? && f.row.None?
    case BeginRetry(plan) =>
      f.task.None? && HasStatus(f, FailedRetryable) && Confirmed(f.row.value.request, plan)
    case LoadCheckpoint => f.task.Some? && BeforeReceipt(f.task.value.phase)
    case WriteJournal => InPhase(f, Journaling)
    case DeleteNext =>
      && f.task.Some? && f.task.value.phase.Executing? && f.task.value.phase.next < |f.plan.operations|
      && !Refused(sh.references, sh.rows - f.task.value.phase.staged, NextSwept(f, sh))
    case CommitReceipt =>
      && f.task.Some? && f.task.value.phase.Executing? && f.task.value.phase.next == |f.plan.operations|
      && f.task.value.seen.Some? && f.row.Some? && f.receipt.None?
    case RollBack => f.task.Some? && f.task.value.phase.Executing?
    case DiscardJournal => InPhase(f, RolledBack)
    case CommitFailure => InPhase(f, Discarded) && f.row.Some?
    case AnnounceFailure => InPhase(f, FailureCommitted)
    case UnlinkNext =>
      f.task.Some? && f.task.value.phase.Purging? && f.journal.Some? && f.task.value.phase.next < |f.journal.value|
    case DropJournal =>
      f.task.Some? && f.task.value.phase.Purging? && (f.journal.Some? ==> f.task.value.phase.next == |f.journal.value|)
    case FailPurge => f.task.Some? && (f.task.value.phase.Purging? || f.task.value.phase.Purged?)
    case CommitPartial => InPhase(f, PurgeFailed) && f.row.Some?
    case AnnouncePartial => InPhase(f, PartialCommitted)
    case AnnounceAwaiting => InPhase(f, Purged(false)) || InPhase(f, ResumeCommitted)
    case BeginResume => f.task.None? && HasStatus(f, Partial)
    case CommitResumed => InPhase(f, Purged(true)) && f.row.Some?
    case BeginComplete =>
      && f.task.None? && HasStatus(f, AwaitingBaseline)
      && f.receipt == Some(sh.checkpoint) && f.row.value.checkpoint == Some(sh.checkpoint)
    case CommitCompleted => InPhase(f, Completing) && f.row.Some?
    case RemoveMarker => InPhase(f, CompletionCommitted)
    case Stop => f.task.Some?
  }

  function At(f: Flow, p: Phase): Flow
    requires f.task.Some?
  {
    f.(task := Some(f.task.value.(phase := p)))
  }

  function WithStatus(f: Flow, status: Status): Flow
    requires f.row.Some?
  {
    f.(row := Some(f.row.value.(status := status)))
  }

  function FlowAfter(f: Flow, sh: Shared, a: Action): Flow
    requires MayAct(f, sh, a)
  {
    match a
    case Insert => At(f, Journaling).(row := Some(Workflow(f.task.value.phase.request, Running, None)))
    case BeginRetry(plan) => WithStatus(f, Running).(task := Some(Task(Journaling, None)), plan := plan)
    case LoadCheckpoint => f.(task := Some(f.task.value.(seen := Some(sh.checkpoint))))
    case WriteJournal => At(f,
      Executing(0, {})).(journal := if f.plan.files == [] then f.journal else Some(f.plan.files))
    case DeleteNext =>
      At(f, Executing(f.task.value.phase.next + 1, f.task.value.phase.staged + NextSwept(f, sh)))
    case CommitReceipt =>
      var checkpoint := f.task.value.seen.value + 1;
      At(f, Purging(0, false)).(
        receipt := Some(checkpoint),
        row := Some(f.row.value.(status := AwaitingBaseline, checkpoint := Some(checkpoint))))
    case RollBack => At(f, RolledBack)
    case DiscardJournal => At(f, Discarded).(journal := None)
    case CommitFailure => WithStatus(At(f, FailureCommitted), FailedRetryable)
    case AnnounceFailure => f.(task := None)
    case UnlinkNext => At(f, Purging(f.task.value.phase.next + 1, f.task.value.phase.resumed))
    case DropJournal => At(f, Purged(f.task.value.phase.resumed)).(journal := None)
    case FailPurge => if f.task.value.phase.resumed then f.(task := None) else At(f, PurgeFailed)
    case CommitPartial => WithStatus(At(f, PartialCommitted), Partial)
    case AnnouncePartial => f.(task := None)
    case AnnounceAwaiting => f.(task := None)
    case BeginResume => f.(task := Some(Task(Purging(0, true), None)))
    case CommitResumed => WithStatus(At(f, ResumeCommitted), AwaitingBaseline)
    case BeginComplete => f.(task := Some(Task(Completing, Some(sh.checkpoint))))
    case CommitCompleted => WithStatus(At(f, CompletionCommitted), Completed)
    case RemoveMarker => f.(task := None)
    case Stop => f.(task := None)
  }

  function SharedAfter(w: WorkflowId, f: Flow, sh: Shared, a: Action): Shared
    requires MayAct(f, sh, a)
  {
    match a
    case CommitReceipt => sh.(checkpoint := f.task.value.seen.value + 1, rows := sh.rows - f.task.value.phase.staged)
    case UnlinkNext => sh.(files := sh.files - {f.journal.value[f.task.value.phase.next]})
    case AnnounceFailure => sh.(marker := Some(Marker(w, None, FailedRetryable)))
    case AnnouncePartial => sh.(marker := Some(Marker(w, f.receipt, Partial)))
    case AnnounceAwaiting => sh.(marker := Some(Marker(w, f.receipt, AwaitingBaseline)))
    case RemoveMarker => if MarkerIs(sh, w, f.receipt) then sh.(marker := None) else sh
    case _ => sh
  }

  predicate MarkerIs(sh: Shared, w: WorkflowId, checkpoint: Option<nat>) {
    sh.marker.Some? && sh.marker.value.workflow == w && sh.marker.value.checkpoint == checkpoint
  }

  ghost predicate Planned(s: World, f: Path) {
    exists w :: w in s.flows && f in s.flows[w].plan.files
  }

  ghost predicate Enabled(s: World, step: Step) {
    match step
    case Announce(w, request, plan) => w !in s.flows && Confirmed(request, plan)
    case Act(w, a) =>
      && w in s.flows && MayAct(s.flows[w], s.shared, a)
      // the table's unique constraints
      && (a.Insert? ==> forall v :: v in s.flows && s.flows[v].row.Some? ==>
            !SameKey(s.flows[v].row.value.request, s.flows[w].task.value.phase.request))
      && (a.CommitReceipt? ==>
        forall v :: v in s.flows ==> s.flows[v].receipt != Some(s.flows[w].task.value.seen.value + 1))
    case OtherWork(rows, uploads) => forall f :: f in uploads ==> !Planned(s, f)
  }

  ghost function Apply(s: World, step: Step): World
    requires Enabled(s, step)
  {
    match step
    case Announce(w, request, plan) =>
      World(s.flows[w := Flow(None, None, None, Some(Task(Announced(request), None)), plan)],
            s.shared.(marker := Some(Marker(w, None, Running))))
    case Act(w, a) =>
      World(s.flows[w := FlowAfter(s.flows[w], s.shared, a)], SharedAfter(w, s.flows[w], s.shared, a))
    case OtherWork(rows, uploads) => s.(shared := s.shared.(rows := rows, files := s.shared.files + uploads))
  }

  // ---------------------------------------------------------------- runs

  ghost predicate Allowed(s: World, steps: seq<Step>)
    decreases |steps|
  {
    steps == [] || (Enabled(s, steps[0]) && Allowed(Apply(s, steps[0]), steps[1..]))
  }

  ghost function After(s: World, steps: seq<Step>): World
    requires Allowed(s, steps)
    decreases |steps|
  {
    if steps == [] then s else After(Apply(s, steps[0]), steps[1..])
  }

  ghost predicate Reachable(s: World) {
    exists rows, references, files, steps ::
      Allowed(Initial(rows, references, files), steps) && s == After(Initial(rows, references, files), steps)
  }

  lemma {:induction false} RunsCompose(s: World, first: seq<Step>, second: seq<Step>)
    requires Allowed(s, first) && Allowed(After(s, first), second)
    ensures Allowed(s, first + second) && After(s, first + second) == After(After(s, first), second)
    decreases |first|
  {
    if first == [] {
      assert first + second == second;
    } else {
      assert (first + second)[0] == first[0] && (first + second)[1..] == first[1..] + second;
      RunsCompose(Apply(s, first[0]), first[1..], second);
    }
  }

  // ---------------------------------------------------------------- the invariant

  predicate Committed(status: Status) {
    status == AwaitingBaseline || status == Partial || status == Completed
  }

  /** The status a workflow row has while its coroutine is at a given point. */
  predicate StatusInPhase(f: Flow, p: Phase) {
    match p
    case Announced(_) => f.row.None?
    case Journaling | Executing(_, _) | RolledBack | Discarded => HasStatus(f, Running)
    case FailureCommitted => HasStatus(f, FailedRetryable)
    case Purging(_, resumed) => HasStatus(f, if resumed then Partial else AwaitingBaseline)
    case Purged(resumed) => HasStatus(f, if resumed then Partial else AwaitingBaseline)
    case PurgeFailed | ResumeCommitted | Completing => HasStatus(f, AwaitingBaseline)
    case PartialCommitted => HasStatus(f, Partial)
    case CompletionCommitted => HasStatus(f, Completed)
  }

  /** The plan is as confirmed; there is a receipt, and the row carries its checkpoint, exactly in the three
      committed statuses. */
  predicate RowAndReceiptFit(f: Flow, checkpoint: nat) {
    && (f.row.None? ==> f.receipt.None? && f.journal.None?)
    && (f.row.Some? ==> Confirmed(f.row.value.request, f.plan))
    && (f.row.Some? ==> (f.receipt.Some? <==> Committed(f.row.value.status)) && f.row.value.checkpoint == f.receipt)
    && (f.receipt.Some? ==> 1 <= f.receipt.value <= checkpoint)
  }

  /** A journal lists the plan's files; behind a receipt, every planned file is gone or the journal survives. */
  predicate FilesAccounted(f: Flow, files: set<Path>) {
    && (f.journal.Some? ==> f.journal.value == f.plan.files && !HasStatus(f, FailedRetryable))
    && (f.receipt.Some? && f.journal.None? ==> forall i :: 0 <= i < |f.plan.files| ==> f.plan.files[i] !in files)
  }

  ghost predicate TaskFits(f: Flow, t: Task, sh: Shared) {
    && StatusInPhase(f, t.phase)
    && (t.phase.Announced? ==> Confirmed(t.phase.request, f.plan))
    && (t.seen.Some? ==> t.seen.value <= sh.checkpoint)
    && (t.phase.Completing? || t.phase.CompletionCommitted? ==> f.receipt == t.seen)
    && (t.phase.Journaling? || t.phase.Discarded? || t.phase.Purged? || t.phase.ResumeCommitted? ==> f.journal.None?)
    && (t.phase.Executing? ==>
          && t.phase.next <= |f.plan.operations|
          && (forall r :: r in t.phase.staged ==> Reached(sh.references, f.plan.operations, t.phase.next, r))
          && (f.journal.Some? <==> f.plan.files != []))
    && (t.phase.Purging? && f.journal.Some? ==>
          && t.phase.next <= |f.plan.files|
          && forall i :: 0 <= i < t.phase.next ==> f.plan.files[i] !in sh.files)
  }

  ghost predicate FlowFits(f: Flow, sh: Shared) {
    && RowAndReceiptFit(f, sh.checkpoint)
    && FilesAccounted(f, sh.files)
    && (f.task.Some? ==> TaskFits(f, f.task.value, sh))
  }

  /** Receipt checkpoints are 1..n, each once, n being the checkpoint row. */
  ghost predicate ReceiptsNumbered(s: World) {
    && (forall c :: 1 <= c <= s.shared.checkpoint ==> Issued(s, c))
    && (forall v, w :: v in s.flows && w in s.flows && v != w && s.flows[v].receipt.Some? ==>
          s.flows[v].receipt != s.flows[w].receipt)
  }

  ghost predicate Issued(s: World, c: nat) {
    exists w :: w in s.flows && s.flows[w].receipt == Some(c)
  }

  ghost predicate KeysUnique(s: World) {
    forall v, w :: v in s.flows && w in s.flows && v != w && s.flows[v].row.Some? && s.flows[w].row.Some? ==>
      !SameKey(s.flows[v].row.value.request, s.flows[w].row.value.request)
  }

  ghost predicate Inv(s: World) {
    && (forall w :: w in s.flows ==> FlowFits(s.flows[w], s.shared))
    && ReceiptsNumbered(s)
    && KeysUnique(s)
  }

  /** The commit goes through exactly when every delete has run and the session's view of the checkpoint row is
      still current; whoever read it before another workflow committed runs into the unique constraint. */
  lemma CommitNeedsCurrentCheckpoint(s: World, w: WorkflowId)
    requires Inv(s) && w in s.flows && s.flows[w].task.Some? && s.flows[w].task.value.phase.Executing?
    ensures Enabled(s, Act(w, CommitReceipt)) <==>
      s.flows[w].task.value.phase.next == |s.flows[w].plan.operations|
        && s.flows[w].task.value.seen == Some(s.shared.checkpoint)
  {
    var t := s.flows[w].task.value;
    assert FlowFits(s.flows[w], s.shared);
    if t.seen.Some? && t.seen.value < s.shared.checkpoint {
      assert Issued(s, t.seen.value + 1);
    }
    forall v | v in s.flows
      ensures s.flows[v].receipt != Some(s.shared.checkpoint + 1)
    {
      assert FlowFits(s.flows[v], s.shared);
    }
  }

  predicate LeadsToTheReceipt(a: Action) {
    a.Insert? || a.BeginRetry? || a.LoadCheckpoint? || a.WriteJournal? || a.DeleteNext? || a.CommitReceipt?
  }

  predicate ClearsFiles(a: Action) {
    a.UnlinkNext? || a.DropJournal? || a.FailPurge? || a.CommitPartial? || a.AnnouncePartial?
  }

  lemma FlowKeepsFittingToTheReceipt(w: WorkflowId, f: Flow, sh: Shared, a: Action)
    requires FlowFits(f, sh) && MayAct(f, sh, a) && LeadsToTheReceipt(a) && !a.DeleteNext?
    requires a.CommitReceipt? ==> f.task.value.seen == Some(sh.checkpoint)
    ensures FlowFits(FlowAfter(f, sh, a), SharedAfter(w, f, sh, a))
  {
    hide Reached, Refused;
  }

  /** Whatever a delete stages, an operation hits or a cascading reference drags along. */
  lemma FlowKeepsFittingInADelete(w: WorkflowId, f: Flow, sh: Shared)
    requires FlowFits(f, sh) && MayAct(f, sh, DeleteNext)
    ensures FlowFits(FlowAfter(f, sh, DeleteNext), SharedAfter(w, f, sh, DeleteNext))
  {
    hide Reached, Refused, Swept, Confirmed;
    var p, ops := f.task.value.phase, f.plan.operations;
    SweptIsReached(sh.references, ops, p.next, sh.rows - p.staged);
    forall r | r in p.staged
      ensures Reached(sh.references, ops, p.next + 1, r)
    {
      ReachedLater(sh.references, ops, p.next, r);
    }
  }

  lemma FlowKeepsFittingInThePurge(w: WorkflowId, f: Flow, sh: Shared, a: Action)
    requires FlowFits(f, sh) && MayAct(f, sh, a) && ClearsFiles(a)
    ensures FlowFits(FlowAfter(f, sh, a), SharedAfter(w, f, sh, a))
  {
    hide Confirmed, Reached, Refused;
  }

  lemma FlowKeepsFittingOtherwise(w: WorkflowId, f: Flow, sh: Shared, a: Action)
    requires FlowFits(f, sh) && MayAct(f, sh, a) && !LeadsToTheReceipt(a) && !ClearsFiles(a)
    ensures FlowFits(FlowAfter(f, sh, a), SharedAfter(w, f, sh, a))
  {
    hide Confirmed, Reached, Refused;
  }

  /** What a step of its own workflow keeps. */
  lemma OwnFlowKeepsFitting(w: WorkflowId, f: Flow, sh: Shared, a: Action)
    requires FlowFits(f, sh) && MayAct(f, sh, a)
    requires a.CommitReceipt? ==> f.task.value.seen == Some(sh.checkpoint)
    ensures FlowFits(FlowAfter(f, sh, a), SharedAfter(w, f, sh, a))
  {
    hide MayAct, FlowFits, FlowAfter, SharedAfter;
    if a.DeleteNext? {
      FlowKeepsFittingInADelete(w, f, sh);
    } else if LeadsToTheReceipt(a) {
      FlowKeepsFittingToTheReceipt(w, f, sh, a);
    } else if ClearsFiles(a) {
      FlowKeepsFittingInThePurge(w, f, sh, a);
    } else {
      FlowKeepsFittingOtherwise(w, f, sh, a);
    }
  }

  /** What the steps of others keep: the checkpoint only grows, and of the planned files none reappears. */
  lemma OtherFlowsKeepFitting(f: Flow, sh: Shared, after: Shared)
    requires FlowFits(f, sh) && sh.checkpoint <= after.checkpoint && sh.references == after.references
    requires forall i :: 0 <= i < |f.plan.files| && f.plan.files[i] in after.files ==> f.plan.files[i] in sh.files
    ensures FlowFits(f, after)
  {}

  lemma CheckpointOnlyGrows(s: World, step: Step)
    requires Inv(s) && Enabled(s, step)
    ensures s.shared.checkpoint <= Apply(s, step).shared.checkpoint
    ensures step.Act? && step.action.CommitReceipt? ==>
      s.flows[step.w].task.value.seen == Some(s.shared.checkpoint)
        && Apply(s, step).shared.checkpoint == s.shared.checkpoint + 1
    ensures !(step.Act? && step.action.CommitReceipt?) ==> Apply(s, step).shared.checkpoint == s.shared.checkpoint
  {
    if step.Act? && step.action.CommitReceipt? { CommitNeedsCurrentCheckpoint(s, step.w); }
  }

  lemma FlowsKeepFitting(s: World, step: Step)
    requires Inv(s) && Enabled(s, step)
    ensures forall v :: v in Apply(s, step).flows ==> FlowFits(Apply(s, step).flows[v], Apply(s, step).shared)
  {
    CheckpointOnlyGrows(s, step);
    forall v | v in Apply(s, step).flows
      ensures FlowFits(Apply(s, step).flows[v], Apply(s, step).shared)
    {
      if step.Act? && step.w == v {
        OwnFlowKeepsFitting(v, s.flows[v], s.shared, step.action);
      } else if v in s.flows {
        var f := s.flows[v];
        forall i | 0 <= i < |f.plan.files| && f.plan.files[i] in Apply(s, step).shared.files
          ensures f.plan.files[i] in s.shared.files
        {
          assert Planned(s, f.plan.files[i]);
        }
        OtherFlowsKeepFitting(f, s.shared, Apply(s, step).shared);
      }
    }
  }

  lemma FlowsStay(s: World, step: Step)
    requires Enabled(s, step)
    ensures s.flows.Keys <= Apply(s, step).flows.Keys
    ensures step.Act? ==> step.w in s.flows
  {}

  /** Only the commit of a receipt changes one, to the number after the checkpoint. */
  lemma ReceiptAfter(s: World, step: Step, v: WorkflowId)
    requires Inv(s) && Enabled(s, step) && v in Apply(s, step).flows
    ensures var receipt := Apply(s, step).flows[v].receipt;
      if step == Act(v, CommitReceipt) then receipt == Some(s.shared.checkpoint + 1)
      else receipt == if v in s.flows then s.flows[v].receipt else None
    ensures v in s.flows && s.flows[v].receipt.Some? ==>
      s.flows[v].receipt.value <= s.shared.checkpoint && step != Act(v, CommitReceipt)
  {
    hide KeysUnique, ReceiptsNumbered, FlowAfter, SharedAfter, MayAct;
    CheckpointOnlyGrows(s, step);
    if v in s.flows { assert FlowFits(s.flows[v], s.shared); }
    if step.Act? && step.w == v { OwnReceipt(s.flows[v], s.shared, step.action); }
  }

  lemma OwnReceipt(f: Flow, sh: Shared, a: Action)
    requires MayAct(f, sh, a)
    ensures if a.CommitReceipt? then f.receipt.None? && FlowAfter(f, sh, a).receipt == Some(f.task.value.seen.value + 1)
            else FlowAfter(f, sh, a).receipt == f.receipt
  {}

  lemma ReceiptsStayNumbered(s: World, step: Step)
    requires Inv(s) && Enabled(s, step)
    ensures ReceiptsNumbered(Apply(s, step))
  {
    hide Apply, Enabled, FlowFits, KeysUnique;
    var t := Apply(s, step);
    CheckpointOnlyGrows(s, step);
    FlowsStay(s, step);
    forall c | 1 <= c <= t.shared.checkpoint
      ensures Issued(t, c)
    {
      if c <= s.shared.checkpoint {
        assert Issued(s, c);
        var w :| w in s.flows && s.flows[w].receipt == Some(c);
        ReceiptAfter(s, step, w);
        assert t.flows[w].receipt == Some(c);
      } else {
        ReceiptAfter(s, step, step.w);
        assert t.flows[step.w].receipt == Some(c);
      }
    }
    ReceiptsStayDistinct(s, step);
  }

  lemma ReceiptsStayDistinct(s: World, step: Step)
    requires Inv(s) && Enabled(s, step)
    ensures forall v, w ::
      v in Apply(s, step).flows && w in Apply(s, step).flows && v != w && Apply(s, step).flows[v].receipt.Some? ==>
      Apply(s, step).flows[v].receipt != Apply(s, step).flows[w].receipt
  {
    hide Apply, Enabled, FlowFits, KeysUnique;
    var t := Apply(s, step);
    forall v, w | v in t.flows && w in t.flows && v != w && t.flows[v].receipt.Some?
      ensures t.flows[v].receipt != t.flows[w].receipt
    {
      ReceiptAfter(s, step, v);
      ReceiptAfter(s, step, w);
    }
  }

  lemma KeysStayUnique(s: World, step: Step)
    requires Inv(s) && Enabled(s, step)
    ensures KeysUnique(Apply(s, step))
  {
    var t := Apply(s, step);
    forall v, w | v in t.flows && w in t.flows && v != w && t.flows[v].row.Some? && t.flows[w].row.Some?
      ensures !SameKey(t.flows[v].row.value.request, t.flows[w].row.value.request)
    {
      RequestsAreFixed(s, step, v);
      RequestsAreFixed(s, step, w);
    }
  }

  /** A workflow row, once there, keeps its request; only its own insert creates it. */
  lemma RequestsAreFixed(s: World, step: Step, v: WorkflowId)
    requires Enabled(s, step) && v in Apply(s, step).flows && Apply(s, step).flows[v].row.Some?
    ensures v in s.flows
    ensures if s.flows[v].row.Some? then Apply(s, step).flows[v].row.value.request == s.flows[v].row.value.request
            else
              && step == Act(v, Insert)
              && Apply(s, step).flows[v].row.value.request == s.flows[v].task.value.phase.request
  {}

  lemma StepKeepsInv(s: World, step: Step)
    requires Inv(s) && Enabled(s, step)
    ensures Inv(Apply(s, step))
  {
    FlowsKeepFitting(s, step);
    ReceiptsStayNumbered(s, step);
    KeysStayUnique(s, step);
  }

  lemma {:induction false} RunKeepsInv(s: World, steps: seq<Step>)
    requires Inv(s) && Allowed(s, steps)
    ensures Inv(After(s, steps))
    decreases |steps|
  {
    if steps != [] {
      StepKeepsInv(s, steps[0]);
      RunKeepsInv(Apply(s, steps[0]), steps[1..]);
    }
  }

  /** Safety of every run, with workflows interleaving freely and stopping anywhere: receipts are numbered 1..n
      with n the checkpoint row; a workflow has a receipt, with its own checkpoint, exactly in the committed
      statuses; and behind a receipt every planned file is gone or still listed in the surviving journal. */
  lemma EveryReachableStateIsConsistent(s: World)
    requires Reachable(s)
    ensures Inv(s)
    ensures forall c: nat :: 1 <= c <= s.shared.checkpoint <==> Issued(s, c)
    ensures forall w :: w in s.flows && s.flows[w].row.Some? ==>
      && (s.flows[w].receipt.Some? <==> Committed(s.flows[w].row.value.status))
      && s.flows[w].row.value.checkpoint == s.flows[w].receipt
    ensures forall w, f ::
      w in s.flows && s.flows[w].receipt.Some? && f in s.flows[w].plan.files && f in s.shared.files ==>
      s.flows[w].journal.Some? && f in s.flows[w].journal.value
  {
    var rows, references, files, steps :|
      Allowed(Initial(rows, references, files), steps) && s == After(Initial(rows, references, files), steps);
    RunKeepsInv(Initial(rows, references, files), steps);
    assert forall w :: w in s.flows ==> FlowFits(s.flows[w], s.shared);
    forall w, f | w in s.flows && s.flows[w].receipt.Some? && f in s.flows[w].plan.files && f in s.shared.files
      ensures s.flows[w].journal.Some? && f in s.flows[w].journal.value
    {
      var i :| 0 <= i < |s.flows[w].plan.files| && s.flows[w].plan.files[i] == f;
    }
  }

  // ---------------------------------------------------------------- what single steps may do

  /** The coordinator removes a file only when unlinking a planned file of a workflow whose receipt is committed. */
  lemma FilesGoOnlyBehindTheReceipt(s: World, step: Step, f: Path)
    requires Inv(s) && Enabled(s, step) && f in s.shared.files && f !in Apply(s, step).shared.files
    ensures step.Act? && step.action.UnlinkNext? && s.flows[step.w].receipt.Some? && f in s.flows[step.w].plan.files
  {
    assert FlowFits(s.flows[step.w], s.shared);
  }

  /** The coordinator removes rows only in the commit that issues the workflow's one receipt, and only rows its
      plan's operations hit or drag along through cascading references. */
  lemma RowsGoOnlyWithTheReceipt(s: World, step: Step, r: Row)
    requires Inv(s) && Enabled(s, step) && !step.OtherWork? && r in s.shared.rows && r !in Apply(s, step).shared.rows
    ensures step == Act(step.w, CommitReceipt) && s.flows[step.w].receipt.None?
      && Apply(s, step).flows[step.w].receipt.Some?
    ensures var ops := s.flows[step.w].plan.operations; Reached(s.shared.references, ops, |ops|, r)
  {
    assert FlowFits(s.flows[step.w], s.shared);
  }

  lemma OwnStepKeepsThePlan(f: Flow, sh: Shared, a: Action)
    requires FlowFits(f, sh) && MayAct(f, sh, a)
    ensures PlanDigest.DigestOf(FlowAfter(f, sh, a).plan) == PlanDigest.DigestOf(f.plan)
    ensures f.receipt.Some? ==> FlowAfter(f, sh, a).plan == f.plan && FlowAfter(f, sh, a).receipt == f.receipt
  {}

  /** The plan a workflow runs keeps the digest it was first confirmed with, over any run and any retries, and
      does not change at all once its receipt is committed. */
  lemma {:induction false} PlanKeepsItsDigest(s: World, steps: seq<Step>, w: WorkflowId)
    requires Inv(s) && Allowed(s, steps) && w in s.flows
    ensures w in After(s, steps).flows
    ensures PlanDigest.DigestOf(After(s, steps).flows[w].plan) == PlanDigest.DigestOf(s.flows[w].plan)
    ensures s.flows[w].receipt.Some? ==>
      After(s, steps).flows[w].plan == s.flows[w].plan && After(s, steps).flows[w].receipt == s.flows[w].receipt
    decreases |steps|
  {
    if steps != [] {
      if steps[0].Act? && steps[0].w == w { OwnStepKeepsThePlan(s.flows[w], s.shared, steps[0].action); }
      StepKeepsInv(s, steps[0]);
      PlanKeepsItsDigest(Apply(s, steps[0]), steps[1..], w);
    }
  }

  /** So, whatever retries lie between, what a workflow finally deletes is what its first confirmed plan would delete
      from the same database, as long as the record ids of either plan have only one reading. */
  lemma DeletesWhatWasConfirmed(s: World, steps: seq<Step>, w: WorkflowId, schema: string -> PlanDigest.Keying)
    requires Inv(s) && Allowed(s, steps) && w in s.flows && w in After(s, steps).flows
    requires PlanDigest.Keyed(s.flows[w].plan, schema) && PlanDigest.Keyed(After(s, steps).flows[w].plan, schema)
    requires PlanDigest.ClearlyListed(s.flows[w].plan, schema)
      || PlanDigest.ClearlyListed(After(s, steps).flows[w].plan, schema)
    ensures SameEffect(After(s, steps).flows[w].plan.operations, s.flows[w].plan.operations)
    ensures PlanDigest.RunTheSame(After(s, steps).flows[w].plan.operations, s.flows[w].plan.operations)
  {
    PlanKeepsItsDigest(s, steps, w);
    PlanDigest.SameDigestSameEffect(After(s, steps).flows[w].plan, s.flows[w].plan, schema);
  }

  /** And the files it finally removes are those first confirmed, as long as no two stored files share a name. */
  lemma RemovesTheFilesConfirmed(s: World, steps: seq<Step>, w: WorkflowId, stored: set<Path>)
    requires Inv(s) && Allowed(s, steps) && w in s.flows && w in After(s, steps).flows
    requires PlanDigest.NamesDiffer(stored) && PlanDigest.FilesWithin(s.flows[w].plan, stored)
    requires PlanDigest.FilesWithin(After(s, steps).flows[w].plan, stored)
    ensures Elements(After(s, steps).flows[w].plan.files) == Elements(s.flows[w].plan.files)
  {
    PlanKeepsItsDigest(s, steps, w);
    PlanDigest.DigestFixesFilesIff(stored);
    assert PlanDigest.DigestFixesFiles(stored);
  }

  function Commits(steps: seq<Step>, w: WorkflowId): nat {
    if steps == [] then 0 else (if steps[0] == Act(w, CommitReceipt) then 1 else 0) + Commits(steps[1..], w)
  }

  /** Erasure happens at most once per workflow: no run contains a second deleting commit. */
  lemma {:induction false} AtMostOneCommit(s: World, steps: seq<Step>, w: WorkflowId)
    requires Inv(s) && Allowed(s, steps)
    ensures Commits(steps, w) <= if w in s.flows && s.flows[w].receipt.Some? then 0 else 1
    decreases |steps|
  {
    if steps != [] {
      StepKeepsInv(s, steps[0]);
      if w in s.flows { PlanKeepsItsDigest(s, [steps[0]], w); }
      AtMostOneCommit(Apply(s, steps[0]), steps[1..], w);
    }
  }

  // ---------------------------------------------------------------- runs of one workflow on its own

  ghost predicate MayRun(w: WorkflowId, f: Flow, sh: Shared, actions: seq<Action>)
    decreases |actions|
  {
    actions == []
    || (MayAct(f, sh, actions[0]) && !actions[0].Insert? && !actions[0].CommitReceipt?
        && MayRun(w, FlowAfter(f, sh, actions[0]), SharedAfter(w, f, sh, actions[0]), actions[1..]))
  }

  ghost function Ran(w: WorkflowId, f: Flow, sh: Shared, actions: seq<Action>): (Flow, Shared)
    requires MayRun(w, f, sh, actions)
    decreases |actions|
  {
    if actions == [] then (f, sh)
    else Ran(w, FlowAfter(f, sh, actions[0]), SharedAfter(w, f, sh, actions[0]), actions[1..])
  }

  function Steps(w: WorkflowId, actions: seq<Action>): seq<Step> {
    seq(|actions|, i requires 0 <= i < |actions| => Act(w, actions[i]))
  }

  /** Running one workflow's actions changes its flow and the shared stores, and no other flow. */
  lemma {:induction false} OwnRun(s: World, w: WorkflowId, actions: seq<Action>)
    requires w in s.flows && MayRun(w, s.flows[w], s.shared, actions)
    ensures Allowed(s, Steps(w, actions))
    ensures var (f, sh) := Ran(w, s.flows[w], s.shared, actions);
      After(s, Steps(w, actions)) == World(s.flows[w := f], sh)
    decreases |actions|
  {
    if actions == [] {
      assert s.flows[w := s.flows[w]] == s.flows;
    } else {
      var t := Apply(s, Act(w, actions[0]));
      OwnRun(t, w, actions[1..]);
      assert Steps(w, actions)[1..] == Steps(w, actions[1..]);
      var (f, sh) := Ran(w, s.flows[w], s.shared, actions);
      assert t.flows[w := f] == s.flows[w := f];
    }
  }

  lemma RunFrom(w: WorkflowId, f: Flow, sh: Shared, a: Action, rest: seq<Action>)
    requires MayAct(f, sh, a) && !a.Insert? && !a.CommitReceipt?
    requires MayRun(w, FlowAfter(f, sh, a), SharedAfter(w, f, sh, a), rest)
    ensures MayRun(w, f, sh, [a] + rest)
    ensures Ran(w, f, sh, [a] + rest) == Ran(w, FlowAfter(f, sh, a), SharedAfter(w, f, sh, a), rest)
  {
    assert ([a] + rest)[1..] == rest;
  }

  // ---------------------------------------------------------------- losing the checkpoint race

  /** The exception path before the receipt: roll back, drop the journal, record FAILED_RETRYABLE. */
  const FAILURE_PATH: seq<Action> := [RollBack] + ([DiscardJournal] + ([CommitFailure] + ([AnnounceFailure] + [])))

  lemma FailurePathRuns(w: WorkflowId, f: Flow, sh: Shared)
    requires f.task.Some? && f.task.value.phase.Executing? && f.row.Some?
    ensures MayRun(w, f, sh, FAILURE_PATH)
    ensures Ran(w, f, sh, FAILURE_PATH)
         == (WithStatus(f, FailedRetryable).(journal := None, task := None),
           sh.(marker := Some(Marker(w, None, FailedRetryable))))
  {
    var f1 := At(f, RolledBack);
    var f2 := At(f1, Discarded).(journal := None);
    var f3 := WithStatus(At(f2, FailureCommitted), FailedRetryable);
    RunFrom(w, f3, sh, AnnounceFailure, []);
    RunFrom(w, f2, sh, CommitFailure, [AnnounceFailure] + []);
    RunFrom(w, f1, sh, DiscardJournal, [CommitFailure] + ([AnnounceFailure] + []));
    RunFrom(w, f, sh, RollBack, [DiscardJournal] + ([CommitFailure] + ([AnnounceFailure] + [])));
  }

  /** A workflow that read a checkpoint another has since taken cannot commit; its way out deletes no row and no
      file, issues no receipt, and leaves it FAILED_RETRYABLE, free to be retried with the same plan. */
  lemma LoserOfTheRaceDeletesNothing(s: World, w: WorkflowId)
    requires Inv(s) && w in s.flows && s.flows[w].task.Some? && s.flows[w].task.value.phase.Executing?
    requires s.flows[w].task.value.seen.Some? && s.flows[w].task.value.seen.value != s.shared.checkpoint
    ensures !Enabled(s, Act(w, CommitReceipt))
    ensures Allowed(s, Steps(w, FAILURE_PATH))
    ensures var t, f := After(s, Steps(w, FAILURE_PATH)),
      WithStatus(s.flows[w], FailedRetryable).(journal := None, task := None);
      && t == World(s.flows[w := f], s.shared.(marker := Some(Marker(w, None, FailedRetryable))))
      && f.receipt.None? && Enabled(t, Act(w, BeginRetry(f.plan)))
  {
    CommitNeedsCurrentCheckpoint(s, w);
    assert FlowFits(s.flows[w], s.shared);
    FailurePathRuns(w, s.flows[w], s.shared);
    OwnRun(s, w, FAILURE_PATH);
  }

  // ---------------------------------------------------------------- finishing an interrupted purge

  /** Unlinking from position i to the end of the journal, removing it, and recording the result. */
  function PurgeRest(i: nat, n: nat): (actions: seq<Action>)
    requires i <= n
    ensures forall k :: 0 <= k < |actions| ==> !actions[k].BeginRetry?
    decreases n - i
  {
    if i == n then [DropJournal] + ([CommitResumed] + ([AnnounceAwaiting] + [])) else [UnlinkNext] + PurgeRest(i + 1, n)
  }

  /** Removing the journal, if there is one, and recording the result. */
  lemma PurgeEndRuns(w: WorkflowId, f: Flow, sh: Shared, i: nat)
    requires HasStatus(f, Partial) && f.task == Some(Task(Purging(i, true), None))
      && (f.journal.Some? ==> i == |f.journal.value|)
    ensures MayRun(w, f, sh, PurgeRest(i, i))
    ensures Ran(w, f, sh, PurgeRest(i, i))
         == (WithStatus(f, AwaitingBaseline).(journal := None, task := None),
             sh.(marker := Some(Marker(w, f.receipt, AwaitingBaseline))))
  {
    var f1 := At(f, Purged(true)).(journal := None);
    var f2 := WithStatus(At(f1, ResumeCommitted), AwaitingBaseline);
    RunFrom(w, f2, sh, AnnounceAwaiting, []);
    RunFrom(w, f1, sh, CommitResumed, [AnnounceAwaiting] + []);
    RunFrom(w, f, sh, DropJournal, [CommitResumed] + ([AnnounceAwaiting] + []));
  }

  lemma {:induction false} PurgeRestRuns(w: WorkflowId, f: Flow, sh: Shared, i: nat)
    requires HasStatus(f, Partial) && f.task == Some(Task(Purging(i, true), None)) && f.journal.Some?
      && i <= |f.journal.value|
    ensures MayRun(w, f, sh, PurgeRest(i, |f.journal.value|))
    ensures Ran(w, f, sh, PurgeRest(i, |f.journal.value|))
         == (WithStatus(f, AwaitingBaseline).(journal := None, task := None),
             sh.(files := sh.files - Elements(f.journal.value[i..]),
               marker := Some(Marker(w, f.receipt, AwaitingBaseline))))
    decreases |f.journal.value| - i
  {
    var n := |f.journal.value|;
    if i < n {
      var g, sh' := FlowAfter(f, sh, UnlinkNext), SharedAfter(w, f, sh, UnlinkNext);
      PurgeRestRuns(w, g, sh', i + 1);
      assert f.journal.value[i..] == [f.journal.value[i]] + f.journal.value[i + 1..];
      assert sh'.files - Elements(f.journal.value[i + 1..]) == sh.files - Elements(f.journal.value[i..]);
      RunFrom(w, f, sh, UnlinkNext, PurgeRest(i + 1, n));
    } else {
      PurgeEndRuns(w, f, sh, i);
      assert sh.files - Elements(f.journal.value[i..]) == sh.files;
    }
  }

  /** The one resume that succeeds, however earlier purges were cut short: from any reachable PARTIAL state it
      brings the files to where a single uninterrupted purge would, moves the workflow to AWAITING, and changes no
      receipt, checkpoint or subject row. */
  lemma ResumeFinishesThePurge(s: World, w: WorkflowId) returns (actions: seq<Action>)
    requires Inv(s) && w in s.flows && s.flows[w].task.None? && HasStatus(s.flows[w], Partial)
    ensures MayRun(w, s.flows[w], s.shared, actions) && Allowed(s, Steps(w, actions))
    ensures forall i :: 0 <= i < |actions| ==> !actions[i].BeginRetry?
    ensures Ran(w, s.flows[w], s.shared, actions).0.journal.None?
    ensures After(s, Steps(w, actions)) == World(
      s.flows[w := WithStatus(s.flows[w], AwaitingBaseline).(journal := None)],
      s.shared.(files := s.shared.files - Elements(s.flows[w].plan.files),
                marker := Some(Marker(w, s.flows[w].receipt, AwaitingBaseline))))
  {
    var f, n := s.flows[w], |s.flows[w].plan.files|;
    assert FlowFits(f, s.shared);
    var g := FlowAfter(f, s.shared, BeginResume);
    if f.journal.Some? {
      PurgeRestRuns(w, g, s.shared, 0);
      assert f.journal.value[0..] == f.plan.files;
      RunFrom(w, f, s.shared, BeginResume, PurgeRest(0, n));
      actions := [BeginResume] + PurgeRest(0, n);
    } else {
      PurgeEndRuns(w, g, s.shared, 0);
      assert s.shared.files - Elements(f.plan.files) == s.shared.files;
      RunFrom(w, f, s.shared, BeginResume, PurgeRest(0, 0));
      actions := [BeginResume] + PurgeRest(0, 0);
    }
    OwnRun(s, w, actions);
  }
}
