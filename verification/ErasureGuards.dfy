/** The fail-closed marker and the file journal over whole runs: what one workflow at a time guarantees, and
    exactly where several workflows, or a hard stop at the wrong moment, leave the guarantee. */
module ErasureGuards {
  import opened Prelude
  import opened DeletionPlans
  import opened ForeignKeys
  import opened ErasureWorkflow
  import PlanDigest

  lemma {:induction false} Then(s: World, steps: seq<Step>, step: Step)
    requires Allowed(s, steps) && Enabled(After(s, steps), step)
    ensures Allowed(s, steps + [step]) && After(s, steps + [step]) == Apply(After(s, steps), step)
  {
    var t := After(s, steps);
    assert [step][1..] == [] && Allowed(Apply(t, step), []) && After(Apply(t, step), []) == Apply(t, step);
    assert Allowed(t, [step]) && After(t, [step]) == Apply(t, step);
    RunsCompose(s, steps, [step]);
  }

  // ---------------------------------------------------------------- one workflow at a time

  /** From just before its row is inserted until its COMPLETED status is committed. */
  predicate Unfinished(f: Flow) {
    if f.row.Some? then f.row.value.status != Completed else f.task.Some? && f.task.value.phase.Announced?
  }

  predicate Busy(f: Flow) {
    Unfinished(f) || f.task.Some?
  }

  ghost predicate Guarded(s: World) {
    s.shared.marker.None? ==> forall w :: w in s.flows ==> !Unfinished(s.flows[w])
  }

  ghost predicate OneBusy(s: World) {
    forall v, w :: v in s.flows && w in s.flows && v != w ==> !Busy(s.flows[v]) || !Busy(s.flows[w])
  }

  /** A new erasure is announced only when no other is under way. */
  ghost predicate Alone(s: World, step: Step) {
    step.Announce? ==> forall v :: v in s.flows ==> !Busy(s.flows[v])
  }

  ghost predicate OneAtATime(s: World, steps: seq<Step>)
    requires Allowed(s, steps)
    decreases |steps|
  {
    steps == [] || (Alone(s, steps[0]) && OneAtATime(Apply(s, steps[0]), steps[1..]))
  }

  lemma OwnStepAndTheGuard(f: Flow, sh: Shared, a: Action)
    requires (f.task.Some? ==> StatusInPhase(f, f.task.value.phase)) && MayAct(f, sh, a)
    ensures Busy(f) && (Unfinished(FlowAfter(f, sh, a)) ==> Unfinished(f))
  {}

  lemma OwnStepAndTheMarker(w: WorkflowId, f: Flow, sh: Shared, a: Action)
    requires (f.task.Some? ==> StatusInPhase(f, f.task.value.phase)) && MayAct(f, sh, a)
      && SharedAfter(w, f, sh, a).marker.None?
    ensures sh.marker.None? || (a.RemoveMarker? && !Unfinished(FlowAfter(f, sh, a)))
  {}

  lemma StepStaysGuarded(s: World, step: Step)
    requires Inv(s) && Guarded(s) && OneBusy(s) && Enabled(s, step) && Alone(s, step)
    ensures Guarded(Apply(s, step)) && OneBusy(Apply(s, step))
  {
    if step.Act? {
      OwnStepAndTheGuard(s.flows[step.w], s.shared, step.action);
      if Apply(s, step).shared.marker.None? { OwnStepAndTheMarker(step.w, s.flows[step.w], s.shared, step.action); }
    }
  }

  /** With one erasure at a time the marker is there whenever a workflow is unfinished: at every point of every run,
      whatever exceptions, stops, retries and resumes occur in it. */
  lemma {:induction false} AlwaysFailClosed(s: World, steps: seq<Step>)
    requires Inv(s) && Guarded(s) && OneBusy(s) && Allowed(s, steps) && OneAtATime(s, steps)
    ensures Guarded(After(s, steps)) && OneBusy(After(s, steps))
    decreases |steps|
  {
    if steps != [] {
      StepStaysGuarded(s, steps[0]);
      StepKeepsInv(s, steps[0]);
      AlwaysFailClosed(Apply(s, steps[0]), steps[1..]);
    }
  }

  // ---------------------------------------------------------------- any number of workflows

  /** The marker is only ever removed by the workflow it names, once COMPLETED is committed, and that workflow held
      the highest issued checkpoint when its completion was checked. */
  lemma MarkerGoesOnlyOnCompletion(s: World, step: Step)
    requires Inv(s) && Enabled(s, step) && s.shared.marker.Some? && Apply(s, step).shared.marker.None?
    ensures step == Act(step.w, RemoveMarker) && HasStatus(s.flows[step.w], Completed)
    ensures s.shared.marker.value.workflow == step.w && s.shared.marker.value.checkpoint == s.flows[step.w].receipt
    ensures s.flows[step.w].task.value.seen == s.flows[step.w].receipt
  {
    assert FlowFits(s.flows[step.w], s.shared);
  }

  lemma CompletionIsCheckedAtTheTop(s: World, w: WorkflowId)
    requires Inv(s) && Enabled(s, Act(w, BeginComplete))
    ensures s.flows[w].receipt == Some(s.shared.checkpoint) == Apply(s, Act(w, BeginComplete)).flows[w].task.value.seen
    ensures forall v :: v in s.flows && v != w && s.flows[v].receipt.Some? ==>
      s.flows[v].receipt.value < s.shared.checkpoint
  {
    forall v | v in s.flows && v != w && s.flows[v].receipt.Some?
      ensures s.flows[v].receipt.value < s.shared.checkpoint
    {
      assert FlowFits(s.flows[v], s.shared);
    }
  }

  /** Removing the marker keeps the system guarded exactly when no other workflow is unfinished. */
  lemma RemovalKeepsTheGuardIff(s: World, w: WorkflowId)
    requires Inv(s) && Enabled(s, Act(w, RemoveMarker)) && MarkerIs(s.shared, w, s.flows[w].receipt)
    ensures Guarded(Apply(s, Act(w, RemoveMarker))) <==> forall v :: v in s.flows && v != w ==> !Unfinished(s.flows[v])
  {
    assert FlowFits(s.flows[w], s.shared);
    var t := Apply(s, Act(w, RemoveMarker));
    assert forall v :: v in s.flows && v != w ==> t.flows[v] == s.flows[v];
    assert !Unfinished(t.flows[w]);
  }

  /** Its checkpoint has been passed by another workflow's, and it is not being completed. */
  ghost predicate Superseded(s: World, w: WorkflowId) {
    && w in s.flows && s.flows[w].receipt.Some? && s.flows[w].receipt.value < s.shared.checkpoint
    && !HasStatus(s.flows[w], Completed)
    && (s.flows[w].task.Some? ==> !s.flows[w].task.value.phase.Completing?)
  }

  /** A superseded workflow can never be completed afterwards, whatever is done. */
  lemma {:induction false} SupersededNeverCompletes(s: World, steps: seq<Step>, w: WorkflowId)
    requires Inv(s) && Superseded(s, w) && Allowed(s, steps)
    ensures Superseded(After(s, steps), w)
    decreases |steps|
  {
    if steps != [] {
      hide Inv, Superseded, Apply, Enabled;
      SupersededStays(s, steps[0], w);
      StepKeepsInv(s, steps[0]);
      SupersededNeverCompletes(Apply(s, steps[0]), steps[1..], w);
    }
  }

  lemma SupersededStays(s: World, step: Step, w: WorkflowId)
    requires Inv(s) && Superseded(s, w) && Enabled(s, step)
    ensures Superseded(Apply(s, step), w)
  {
    hide KeysUnique, ReceiptsNumbered, FlowAfter, SharedAfter, MayAct, HasStatus;
    CheckpointOnlyGrows(s, step);
    FlowsStay(s, step);
    ReceiptAfter(s, step, w);
    assert FlowFits(s.flows[w], s.shared);
    if step.Act? && step.w == w { OwnStepBehindTheTop(s.flows[w], s.shared, step.action); }
  }

  lemma OwnStepBehindTheTop(f: Flow, sh: Shared, a: Action)
    requires FlowFits(f, sh) && MayAct(f, sh, a) && !HasStatus(f, Completed)
    requires f.receipt.Some? && f.receipt.value < sh.checkpoint && (f.task.Some? ==> !f.task.value.phase.Completing?)
    ensures var g := FlowAfter(f, sh, a); !HasStatus(g, Completed) && (g.task.Some? ==> !g.task.value.phase.Completing?)
  {
    hide FilesAccounted;
  }

  const NOTHING: Plan := Plan([], [])

  function AwaitingFlow(request: Request, checkpoint: nat): Flow {
    Flow(Some(Workflow(request, AwaitingBaseline, Some(checkpoint))), Some(checkpoint), None, None, NOTHING)
  }

  lemma ThenTo(s: World, steps: seq<Step>, t: World, step: Step, u: World)
    requires Allowed(s, steps) && After(s, steps) == t && Enabled(t, step) && Apply(t, step) == u
    ensures Allowed(s, steps + [step]) && After(s, steps + [step]) == u
  {
    Then(s, steps, step);
  }

  /** One step of workflow w, seen on its own flow. */
  lemma ActTo(s: World, steps: seq<Step>, base: map<WorkflowId, Flow>, w: WorkflowId, f: Flow, sh: Shared, a: Action)
    requires Allowed(s, steps) && After(s, steps) == World(base[w := f], sh)
    requires MayAct(f, sh, a) && Enabled(World(base[w := f], sh), Act(w, a))
    ensures Allowed(s, steps + [Act(w, a)])
    ensures After(s, steps + [Act(w, a)]) == World(base[w := FlowAfter(f, sh, a)], SharedAfter(w, f, sh, a))
  {
    var t := World(base[w := f], sh);
    assert base[w := f][w := FlowAfter(f, sh, a)] == base[w := FlowAfter(f, sh, a)];
    ThenTo(s, steps, t, Act(w, a), World(base[w := FlowAfter(f, sh, a)], SharedAfter(w, f, sh, a)));
  }

  /** An undisturbed erasure with an empty plan, from the announcement to AWAITING. */
  lemma EraseNothing(s: World, w: WorkflowId, request: Request) returns (steps: seq<Step>)
    requires Inv(s) && w !in s.flows && Confirmed(request, NOTHING)
    requires forall v :: v in s.flows && s.flows[v].row.Some? ==> !SameKey(s.flows[v].row.value.request, request)
    ensures Allowed(s, steps)
    ensures After(s, steps) == World(
      s.flows[w := AwaitingFlow(request, s.shared.checkpoint + 1)],
      s.shared.(checkpoint := s.shared.checkpoint + 1,
        marker := Some(Marker(w, Some(s.shared.checkpoint + 1), AwaitingBaseline))))
  {
    var n := s.shared.checkpoint + 1;
    steps := CommitErasingNothing(s, w, request);
    var f, sh := After(s, steps).flows[w], After(s, steps).shared;
    ActTo(s, steps, s.flows, w, f, sh, DropJournal);
    steps := steps + [Act(w, DropJournal)];
    ActTo(s, steps, s.flows, w, f.(task := Some(f.task.value.(phase := Purged(false)))), sh, AnnounceAwaiting);
    steps := steps + [Act(w, AnnounceAwaiting)];
  }

  lemma CommitErasingNothing(s: World, w: WorkflowId, request: Request) returns (steps: seq<Step>)
    requires Inv(s) && w !in s.flows && Confirmed(request, NOTHING)
    requires forall v :: v in s.flows && s.flows[v].row.Some? ==> !SameKey(s.flows[v].row.value.request, request)
    ensures Allowed(s, steps)
    ensures After(s, steps) == World(
      s.flows[w := AwaitingFlow(request,
        s.shared.checkpoint + 1).(task := Some(Task(Purging(0, false), Some(s.shared.checkpoint))))],
      s.shared.(checkpoint := s.shared.checkpoint + 1, marker := Some(Marker(w, None, Running))))
  {
    hide Confirmed, SameKey, MayAct;
    steps := BeginErasingNothing(s, w, request);
    RunKeepsInv(s, steps);
    CommitNeedsCurrentCheckpoint(After(s, steps), w);
    var f, sh := After(s, steps).flows[w], After(s, steps).shared;
    ActTo(s, steps, s.flows, w, f, sh, CommitReceipt);
    assert sh.rows - {} == sh.rows;
    steps := steps + [Act(w, CommitReceipt)];
  }

  lemma BeginErasingNothing(s: World, w: WorkflowId, request: Request) returns (steps: seq<Step>)
    requires Inv(s) && w !in s.flows && Confirmed(request, NOTHING)
    requires forall v :: v in s.flows && s.flows[v].row.Some? ==> !SameKey(s.flows[v].row.value.request, request)
    ensures Allowed(s, steps)
    ensures After(s, steps) == World(
      s.flows[w := Flow(Some(Workflow(request, Running, None)), None, None,
        Some(Task(Executing(0, {}), Some(s.shared.checkpoint))), NOTHING)],
      s.shared.(marker := Some(Marker(w, None, Running))))
  {
    var sh := s.shared.(marker := Some(Marker(w, None, Running)));
    var f1 := Flow(None, None, None, Some(Task(Announced(request), None)), NOTHING);
    ThenTo(s, [], s, Announce(w, request, NOTHING), World(s.flows[w := f1], sh));
    steps := [] + [Announce(w, request, NOTHING)];
    ActTo(s, steps, s.flows, w, f1, sh, LoadCheckpoint);
    var f2 := FlowAfter(f1, sh, LoadCheckpoint);
    steps := steps + [Act(w, LoadCheckpoint)];
    assert forall v :: v in s.flows[w := f2] && s.flows[w := f2][v].row.Some? ==> v in s.flows && v != w;
    ActTo(s, steps, s.flows, w, f2, sh, Insert);
    var f3 := FlowAfter(f2, sh, Insert);
    steps := steps + [Act(w, Insert)];
    ActTo(s, steps, s.flows, w, f3, sh, WriteJournal);
    steps := steps + [Act(w, WriteJournal)];
  }

  /** The operational completion of an idle AWAITING workflow. */
  const COMPLETION: seq<Action> := [BeginComplete] + ([CommitCompleted] + ([RemoveMarker] + []))

  lemma CompletionRuns(w: WorkflowId, f: Flow, sh: Shared)
    requires MayAct(f, sh, BeginComplete)
    ensures MayRun(w, f, sh, COMPLETION)
    ensures Ran(w, f, sh, COMPLETION)
         == (WithStatus(f, Completed).(task := None), if MarkerIs(sh, w, f.receipt) then sh.(marker := None) else sh)
  {
    var f1 := f.(task := Some(Task(Completing, Some(sh.checkpoint))));
    var f2 := WithStatus(At(f1, CompletionCommitted), Completed);
    RunFrom(w, f2, sh, RemoveMarker, []);
    RunFrom(w, f1, sh, CommitCompleted, [RemoveMarker] + []);
    RunFrom(w, f, sh, BeginComplete, [CommitCompleted] + ([RemoveMarker] + []));
  }

  /** Two erasures in a row, the second completed first: the marker is gone while the first is still AWAITING, and
      the first can never be completed. */
  lemma SecondCompletionUnguardsTheFirst(rows: Rows, references: References, files: set<Path>,
                                         v: WorkflowId, w: WorkflowId, a: Request, b: Request)
    returns (steps: seq<Step>)
    requires v != w && !SameKey(a, b) && Confirmed(a, NOTHING) && Confirmed(b, NOTHING)
    ensures Allowed(Initial(rows, references, files), steps)
    ensures var t := After(Initial(rows, references, files), steps);
      && t.shared.marker.None? && v in t.flows && HasStatus(t.flows[v], AwaitingBaseline) && !Guarded(t)
      && Inv(t) && Superseded(t, v)
  {
    hide Enabled, Apply, Confirmed;
    var s := Initial(rows, references, files);
    var first := EraseNothing(s, v, a);
    RunKeepsInv(s, first);
    var s1 := After(s, first);
    var second := EraseNothing(s1, w, b);
    RunsCompose(s, first, second);
    RunKeepsInv(s1, second);
    var s2 := After(s1, second);
    assert s2.flows[w] == AwaitingFlow(b, 2) && s2.shared.checkpoint == 2;
    CompletionRuns(w, s2.flows[w], s2.shared);
    OwnRun(s2, w, COMPLETION);
    RunsCompose(s, first + second, Steps(w, COMPLETION));
    steps := first + second + Steps(w, COMPLETION);
    RunKeepsInv(s, steps);
    assert After(s, steps).flows[v] == AwaitingFlow(a, 1);
  }

  // ---------------------------------------------------------------- runs as the planners allow them

  /** Whether the planner of a workflow's request gives this plan over these rows. */
  type Builder = (WorkflowId, Rows, Plan) -> bool

  predicate UnderWay(f: Flow) {
    f.task.Some? && (f.task.value.phase.Journaling? || f.task.value.phase.Executing?)
  }

  /** A retry runs a plan built from the rows it finds; in calm, nobody else changes rows while w's retry runs. */
  ghost predicate OrderlyStep(s: World, step: Step, w: WorkflowId, builds: Builder, calm: bool)
    requires Enabled(s, step)
  {
    && (step.Act? && step.action.BeginRetry? ==> builds(step.w, s.shared.rows, step.action.plan))
    && (calm && w in s.flows && UnderWay(s.flows[w]) && step != Act(w, CommitReceipt) ==>
          Apply(s, step).shared.rows == s.shared.rows)
  }

  ghost predicate Orderly(s: World, steps: seq<Step>, w: WorkflowId, builds: Builder, calm: bool)
    requires Allowed(s, steps)
    decreases |steps|
  {
    steps == []
    || (OrderlyStep(s, steps[0], w, builds, calm) && Orderly(Apply(s, steps[0]), steps[1..], w, builds, calm))
  }

  lemma {:induction false} OrderlyCompose(
    s: World, first: seq<Step>, second: seq<Step>, w: WorkflowId, builds: Builder, calm: bool)
    requires Allowed(s, first) && Orderly(s, first, w, builds, calm)
    requires Allowed(After(s, first), second) && Orderly(After(s, first), second, w, builds, calm)
    ensures Allowed(s, first + second) && Orderly(s, first + second, w, builds, calm)
    ensures After(s, first + second) == After(After(s, first), second)
    decreases |first|
  {
    RunsCompose(s, first, second);
    if first == [] {
      assert first + second == second;
    } else {
      hide OrderlyStep, Enabled, Apply;
      assert (first + second)[0] == first[0] && (first + second)[1..] == first[1..] + second;
      OrderlyCompose(Apply(s, first[0]), first[1..], second, w, builds, calm);
    }
  }

  ghost predicate RetriesAreBuilt(w: WorkflowId, rows: Rows, actions: seq<Action>, builds: Builder) {
    forall i :: 0 <= i < |actions| && actions[i].BeginRetry? ==> builds(w, rows, actions[i].plan)
  }

  /** A workflow's own actions before its commit leave the rows alone. */
  lemma {:induction false} OwnStepsAreOrderly(
    s: World, w: WorkflowId, actions: seq<Action>, builds: Builder, calm: bool)
    requires w in s.flows && MayRun(w, s.flows[w], s.shared, actions)
    requires RetriesAreBuilt(w, s.shared.rows, actions, builds)
    ensures Allowed(s, Steps(w, actions)) && Orderly(s, Steps(w, actions), w, builds, calm)
    decreases |actions|
  {
    OwnRun(s, w, actions);
    if actions != [] {
      var t := Apply(s, Act(w, actions[0]));
      assert Steps(w, actions)[1..] == Steps(w, actions[1..]);
      assert t.shared.rows == s.shared.rows;
      assert forall i :: 0 <= i < |actions[1..]| ==> actions[1..][i] == actions[i + 1];
      OwnStepsAreOrderly(t, w, actions[1..], builds, calm);
    }
  }

  // ---------------------------------------------------------------- which workflows can still be completed

  /** Completed now or in some continuation. */
  ghost predicate CanComplete(s: World, w: WorkflowId, builds: Builder, calm: bool) {
    exists steps :: Allowed(s, steps) && Orderly(s, steps, w, builds, calm)
                    && w in After(s, steps).flows && HasStatus(After(s, steps).flows[w], Completed)
  }

  lemma CanCompleteAfter(s: World, steps: seq<Step>, w: WorkflowId, builds: Builder, calm: bool)
    requires Allowed(s, steps) && Orderly(s, steps, w, builds, calm)
    requires CanComplete(After(s, steps), w, builds, calm)
    ensures CanComplete(s, w, builds, calm)
  {
    var t := After(s, steps);
    var rest :| Allowed(t, rest) && Orderly(t, rest, w, builds, calm) && w in After(t, rest).flows
                && HasStatus(After(t, rest).flows[w], Completed);
    OrderlyCompose(s, steps, rest, w, builds, calm);
    assert Allowed(s, steps + rest);
  }

  lemma CanCompleteFrom(s: World, step: Step, w: WorkflowId, builds: Builder, calm: bool)
    requires Enabled(s, step) && OrderlyStep(s, step, w, builds, calm)
    requires CanComplete(Apply(s, step), w, builds, calm)
    ensures CanComplete(s, w, builds, calm)
  {
    var t := Apply(s, step);
    hide Enabled, Apply, OrderlyStep;
    assert [step][1..] == [] && Allowed(t, []) && After(t, []) == t && Orderly(t, [], w, builds, calm);
    assert Allowed(s, [step]) && After(s, [step]) == t && Orderly(s, [step], w, builds, calm);
    CanCompleteAfter(s, [step], w, builds, calm);
  }

  lemma TopAwaitingCompletes(s: World, w: WorkflowId, builds: Builder, calm: bool)
    requires Inv(s) && w in s.flows && s.flows[w].task.None? && HasStatus(s.flows[w], AwaitingBaseline)
    requires s.flows[w].receipt == Some(s.shared.checkpoint)
    ensures CanComplete(s, w, builds, calm)
  {
    assert FlowFits(s.flows[w], s.shared);
    CompletionRuns(w, s.flows[w], s.shared);
    OwnRun(s, w, COMPLETION);
    OwnStepsAreOrderly(s, w, COMPLETION, builds, calm);
    assert HasStatus(After(s, Steps(w, COMPLETION)).flows[w], Completed);
  }

  lemma TopPartialCompletes(s: World, w: WorkflowId, builds: Builder, calm: bool)
    requires Inv(s) && w in s.flows && s.flows[w].task.None? && HasStatus(s.flows[w], Partial)
    requires s.flows[w].receipt == Some(s.shared.checkpoint)
    ensures CanComplete(s, w, builds, calm)
  {
    var actions := ResumeFinishesThePurge(s, w);
    OwnStepsAreOrderly(s, w, actions, builds, calm);
    RunKeepsInv(s, Steps(w, actions));
    TopAwaitingCompletes(After(s, Steps(w, actions)), w, builds, calm);
    CanCompleteAfter(s, Steps(w, actions), w, builds, calm);
  }

  function Deletes(n: nat): seq<Action> {
    if n == 0 then [] else [DeleteNext] + Deletes(n - 1)
  }

  /** The deletes from operation k on go through when none of the plan is refused. */
  lemma {:induction false} DeletesRun(w: WorkflowId, f: Flow, sh: Shared, k: nat)
    requires k <= |f.plan.operations| && Runs(sh.references, f.plan.operations, sh.rows)
    requires InPhase(f, Executing(k, Gone(sh.references, f.plan.operations, k, sh.rows)))
    ensures var n := |f.plan.operations|;
      && MayRun(w, f, sh, Deletes(n - k))
      && Ran(w, f, sh, Deletes(n - k)) == (At(f, Executing(n, Gone(sh.references, f.plan.operations, n, sh.rows))), sh)
    decreases |f.plan.operations| - k
  {
    var ops := f.plan.operations;
    if k < |ops| {
      assert Passes(sh.references, ops, k, sh.rows);
      assert FlowAfter(f, sh, DeleteNext) == At(f, Executing(k + 1, Gone(sh.references, ops, k + 1, sh.rows)));
      DeletesRun(w, FlowAfter(f, sh, DeleteNext), sh, k + 1);
      RunFrom(w, f, sh, DeleteNext, Deletes(|ops| - k - 1));
    }
  }

  lemma {:induction false} DeletesAreNoRetries(n: nat)
    ensures forall i :: 0 <= i < |Deletes(n)| ==> Deletes(n)[i] == DeleteNext
  {
    if n > 0 { DeletesAreNoRetries(n - 1); }
  }

  /** From its committed row on, a plan that foreign keys do not refuse reaches its commit with the current checkpoint
      in hand. */
  lemma JournaledReachesTheCommit(s: World, w: WorkflowId) returns (actions: seq<Action>)
    requires Inv(s) && w in s.flows && InPhase(s.flows[w], Journaling)
    requires Runs(s.shared.references, s.flows[w].plan.operations, s.shared.rows)
    ensures MayRun(w, s.flows[w], s.shared, actions)
    ensures forall i :: 0 <= i < |actions| ==> !actions[i].BeginRetry?
    ensures Allowed(s, Steps(w, actions)) && Enabled(After(s, Steps(w, actions)), Act(w, CommitReceipt))
  {
    hide Inv, Runs, Deletes, FlowAfter, SharedAfter;
    actions := JournaledRun(w, s.flows[w], s.shared);
    OwnRun(s, w, actions);
    RunKeepsInv(s, Steps(w, actions));
    CommitNeedsCurrentCheckpoint(After(s, Steps(w, actions)), w);
  }

  lemma JournaledRun(w: WorkflowId, f: Flow, sh: Shared) returns (actions: seq<Action>)
    requires InPhase(f, Journaling) && Runs(sh.references, f.plan.operations, sh.rows)
    ensures forall i :: 0 <= i < |actions| ==> !actions[i].BeginRetry?
    ensures MayRun(w, f, sh, actions)
    ensures var g, n := Ran(w, f, sh, actions).0, |f.plan.operations|;
      && g.task == Some(Task(Executing(n, Gone(sh.references, f.plan.operations, n, sh.rows)), Some(sh.checkpoint)))
      && g.plan == f.plan && Ran(w, f, sh, actions).1 == sh
  {
    var n := |f.plan.operations|;
    var f1 := FlowAfter(f, sh, LoadCheckpoint);
    var f2 := FlowAfter(f1, sh, WriteJournal);
    DeletesRun(w, f2, sh, 0);
    DeletesAreNoRetries(n);
    RunFrom(w, f1, sh, WriteJournal, Deletes(n));
    RunFrom(w, f, sh, LoadCheckpoint, [WriteJournal] + Deletes(n));
    actions := [LoadCheckpoint] + ([WriteJournal] + Deletes(n));
  }

  /** Behind the receipt even a purge that fails at once leaves a workflow that can be resumed. */
  const GIVE_UP_PURGE: seq<Action> := [FailPurge] + ([CommitPartial] + ([AnnouncePartial] + []))

  lemma GiveUpPurgeRuns(w: WorkflowId, f: Flow, sh: Shared)
    requires f.task.Some? && f.task.value.phase == Purging(0, false) && f.row.Some?
    ensures MayRun(w, f, sh, GIVE_UP_PURGE)
    ensures Ran(w, f, sh, GIVE_UP_PURGE)
         == (WithStatus(f, Partial).(task := None), sh.(marker := Some(Marker(w, f.receipt, Partial))))
  {
    var f1 := At(f, PurgeFailed);
    var f2 := WithStatus(At(f1, PartialCommitted), Partial);
    RunFrom(w, f2, sh, AnnouncePartial, []);
    RunFrom(w, f1, sh, CommitPartial, [AnnouncePartial] + []);
    RunFrom(w, f, sh, FailPurge, [CommitPartial] + ([AnnouncePartial] + []));
  }

  lemma CommitLeadsToPartial(s: World, w: WorkflowId, builds: Builder, calm: bool) returns (steps: seq<Step>)
    requires Inv(s) && Enabled(s, Act(w, CommitReceipt))
    ensures Allowed(s, steps) && Orderly(s, steps, w, builds, calm)
    ensures w in After(s, steps).flows && After(s, steps).flows[w].task.None?
    ensures HasStatus(After(s, steps).flows[w], Partial)
    ensures After(s, steps).flows[w].receipt == Some(After(s, steps).shared.checkpoint)
  {
    var t := Apply(s, Act(w, CommitReceipt));
    GiveUpPurgeRuns(w, t.flows[w], t.shared);
    OwnRun(t, w, GIVE_UP_PURGE);
    OwnStepsAreOrderly(t, w, GIVE_UP_PURGE, builds, calm);
    steps := [Act(w, CommitReceipt)] + Steps(w, GIVE_UP_PURGE);
    assert steps[1..] == Steps(w, GIVE_UP_PURGE);
  }

  lemma JournaledErases(s: World, w: WorkflowId, builds: Builder, calm: bool)
    requires Inv(s) && w in s.flows && InPhase(s.flows[w], Journaling)
    requires Runs(s.shared.references, s.flows[w].plan.operations, s.shared.rows)
    ensures CanComplete(s, w, builds, calm)
  {
    var actions := JournaledReachesTheCommit(s, w);
    hide Runs, Inv;
    OwnStepsAreOrderly(s, w, actions, builds, calm);
    var first := Steps(w, actions);
    RunKeepsInv(s, first);
    var t := After(s, first);
    var second := CommitLeadsToPartial(t, w, builds, calm);
    RunKeepsInv(t, second);
    TopPartialCompletes(After(t, second), w, builds, calm);
    CanCompleteAfter(t, second, w, builds, calm);
    CanCompleteAfter(s, first, w, builds, calm);
  }

  /** Unless in calm, what foreign keys protect may be removed between the retry's plan and its deletes. */
  lemma JournaledCompletes(s: World, w: WorkflowId, builds: Builder, calm: bool)
    requires Inv(s) && w in s.flows && InPhase(s.flows[w], Journaling)
    requires calm ==> Runs(s.shared.references, s.flows[w].plan.operations, s.shared.rows)
    ensures CanComplete(s, w, builds, calm)
  {
    if calm {
      JournaledErases(s, w, builds, calm);
    } else {
      var clear := OtherWork({}, {});
      StepKeepsInv(s, clear);
      NothingIsRefused(s.shared.references, s.flows[w].plan.operations);
      JournaledErases(Apply(s, clear), w, builds, calm);
      CanCompleteFrom(s, clear, w, builds, calm);
    }
  }

  /** Some database gives a plan with the confirmed digest, and in calm does not refuse it. */
  ghost predicate Retriable(w: WorkflowId, request: Request, references: References, builds: Builder, calm: bool) {
    exists rows: Rows, plan: Plan ::
      builds(w, rows, plan) && Confirmed(request, plan) && (calm ==> Runs(references, plan.operations, rows))
  }

  lemma RetryCompletes(s: World, w: WorkflowId, builds: Builder, calm: bool)
    requires Inv(s) && w in s.flows && s.flows[w].task.None? && HasStatus(s.flows[w], FailedRetryable)
    requires Retriable(w, s.flows[w].row.value.request, s.shared.references, builds, calm)
    ensures CanComplete(s, w, builds, calm)
  {
    var rows: Rows, plan: Plan :| builds(w, rows, plan) && Confirmed(s.flows[w].row.value.request, plan)
      && (calm ==> Runs(s.shared.references, plan.operations, rows));
    var work, retry := OtherWork(rows, {}), Act(w, BeginRetry(plan));
    hide Runs, Confirmed, Inv;
    var t := Apply(s, work);
    StepKeepsInv(s, work);
    RetryIsEnabled(t, w, plan);
    StepKeepsInv(t, retry);
    JournaledCompletes(Apply(t, retry), w, builds, calm);
    CanCompleteFrom(t, retry, w, builds, calm);
    CanCompleteFrom(s, work, w, builds, calm);
  }

  lemma RetryIsEnabled(s: World, w: WorkflowId, plan: Plan)
    requires w in s.flows && s.flows[w].task.None? && HasStatus(s.flows[w], FailedRetryable)
    requires Confirmed(s.flows[w].row.value.request, plan)
    ensures Enabled(s, Act(w, BeginRetry(plan)))
    ensures var t := Apply(s, Act(w, BeginRetry(plan)));
      && t.shared == s.shared && w in t.flows && t.flows[w].plan == plan && InPhase(t.flows[w], Journaling)
  {
    hide Confirmed;
  }

  // ---------------------------------------------------------------- what a receipt needs

  /** A plan that the planner gives over these rows, with the confirmed digest, and that they do not refuse. */
  ghost predicate Runnable(w: WorkflowId, request: Request, references: References, rows: Rows, builds: Builder) {
    exists plan: Plan ::
      builds(w, rows, plan) && Confirmed(request, plan) && Runs(references, plan.operations, rows)
  }

  /** No receipt yet; a retry under way has a plan built from the present rows, and what is staged is what its
      operations so far remove from them. */
  ghost predicate OnItsWay(w: WorkflowId, f: Flow, sh: Shared, request: Request, builds: Builder) {
    && f.receipt.None? && f.row.Some? && f.row.value.request == request
    && (UnderWay(f) ==> builds(w, sh.rows, f.plan))
    && (f.task.Some? && f.task.value.phase.Executing? ==>
          var p, ops := f.task.value.phase, f.plan.operations;
          && p.next <= |ops| && p.staged == Gone(sh.references, ops, p.next, sh.rows)
          && RunsUpTo(sh.references, ops, p.next, sh.rows))
  }

  lemma OwnStepOnItsWay(w: WorkflowId, f: Flow, sh: Shared, a: Action, request: Request, builds: Builder)
    requires FlowFits(f, sh) && MayAct(f, sh, a) && OnItsWay(w, f, sh, request, builds)
    requires a.BeginRetry? ==> builds(w, sh.rows, a.plan)
    ensures a.CommitReceipt? ==> Runnable(w, request, sh.references, sh.rows, builds)
    ensures !a.CommitReceipt? ==> OnItsWay(w, FlowAfter(f, sh, a), SharedAfter(w, f, sh, a), request, builds)
    ensures !a.CommitReceipt? ==> SharedAfter(w, f, sh, a).rows == sh.rows
    ensures SharedAfter(w, f, sh, a).references == sh.references
  {
    hide Gone, Passes, Reached, FilesAccounted, Confirmed;
    NothingGone(sh.references, f.plan.operations, sh.rows);
    if a.DeleteNext? { NextOnItsWay(f, sh); }
  }

  lemma NextOnItsWay(f: Flow, sh: Shared)
    requires MayAct(f, sh, DeleteNext)
    requires var p, ops := f.task.value.phase, f.plan.operations;
      p.staged == Gone(sh.references, ops, p.next, sh.rows) && RunsUpTo(sh.references, ops, p.next, sh.rows)
    ensures var p, ops := f.task.value.phase, f.plan.operations;
      && p.staged + NextSwept(f, sh) == Gone(sh.references, ops, p.next + 1, sh.rows)
      && RunsUpTo(sh.references, ops, p.next + 1, sh.rows)
  {
    hide Swept, Refused;
    var p, ops := f.task.value.phase, f.plan.operations;
    assert Passes(sh.references, ops, p.next, sh.rows);
  }

  lemma NotThereYet(w: WorkflowId, f: Flow, sh: Shared, request: Request, builds: Builder)
    requires OnItsWay(w, f, sh, request, builds)
    ensures f.receipt.None?
  {}

  lemma FlowFitsIn(s: World, w: WorkflowId)
    requires Inv(s) && w in s.flows
    ensures FlowFits(s.flows[w], s.shared)
  {}

  // ---------------------------------------------------------------- what a retry can achieve by itself

  predicate OnlyActs(w: WorkflowId, steps: seq<Step>) {
    forall i :: 0 <= i < |steps| ==> steps[i].Act? && steps[i].w == w
  }

  /** By its own steps alone, retried with plans the planner gives, the workflow reaches its receipt. */
  ghost predicate CanErase(s: World, w: WorkflowId, builds: Builder) {
    exists steps :: Allowed(s, steps) && OnlyActs(w, steps) && Orderly(s, steps, w, builds, false)
                    && w in After(s, steps).flows && After(s, steps).flows[w].receipt.Some?
  }

  lemma {:induction false} ReceiptNeedsARunnablePlan(
    s: World, steps: seq<Step>, w: WorkflowId, request: Request, builds: Builder)
    requires Inv(s) && w in s.flows && OnItsWay(w, s.flows[w], s.shared, request, builds)
    requires Allowed(s, steps) && OnlyActs(w, steps) && Orderly(s, steps, w, builds, false)
    requires w in After(s, steps).flows && After(s, steps).flows[w].receipt.Some?
    ensures Runnable(w, request, s.shared.references, s.shared.rows, builds)
    decreases |steps|
  {
    hide OnItsWay, Runnable, Inv, MayAct, FlowAfter, SharedAfter, FlowFits;
    if steps == [] {
      NotThereYet(w, s.flows[w], s.shared, request, builds);
    } else {
      assert steps[0].Act? && steps[0].w == w;
      FlowFitsIn(s, w);
      OwnStepOnItsWay(w, s.flows[w], s.shared, steps[0].action, request, builds);
      if !steps[0].action.CommitReceipt? {
        StepKeepsInv(s, steps[0]);
        assert forall i :: 0 <= i < |steps[1..]| ==> steps[1..][i] == steps[i + 1];
        ReceiptNeedsARunnablePlan(Apply(s, steps[0]), steps[1..], w, request, builds);
      }
    }
  }

  /** Retried over unchanged rows, however often and with whatever stops, a workflow that failed reaches its receipt
      exactly when the planner gives a plan with its confirmed digest there that foreign keys do not refuse. */
  lemma RetryErasesAsBuiltIff(s: World, w: WorkflowId, builds: Builder)
    requires Inv(s) && w in s.flows && s.flows[w].task.None? && HasStatus(s.flows[w], FailedRetryable)
    ensures CanErase(s, w, builds) <==>
      Runnable(w, s.flows[w].row.value.request, s.shared.references, s.shared.rows, builds)
  {
    var request := s.flows[w].row.value.request;
    FlowFitsIn(s, w);
    if CanErase(s, w, builds) {
      var steps :| Allowed(s, steps) && OnlyActs(w, steps) && Orderly(s, steps, w, builds, false)
                   && w in After(s, steps).flows && After(s, steps).flows[w].receipt.Some?;
      ReceiptNeedsARunnablePlan(s, steps, w, request, builds);
    }
    if Runnable(w, request, s.shared.references, s.shared.rows, builds) {
      var plan: Plan :| builds(w, s.shared.rows, plan) && Confirmed(request, plan)
        && Runs(s.shared.references, plan.operations, s.shared.rows);
      RunnablePlanErases(s, w, plan, builds);
    }
  }

  lemma RunnablePlanErases(s: World, w: WorkflowId, plan: Plan, builds: Builder)
    requires Inv(s) && w in s.flows && s.flows[w].task.None? && HasStatus(s.flows[w], FailedRetryable)
    requires builds(w, s.shared.rows, plan) && Confirmed(s.flows[w].row.value.request, plan)
    requires Runs(s.shared.references, plan.operations, s.shared.rows)
    ensures CanErase(s, w, builds)
  {
    hide Runs, Inv, Confirmed;
    var retry, commit := Act(w, BeginRetry(plan)), Act(w, CommitReceipt);
    RetryIsEnabled(s, w, plan);
    var t := Apply(s, retry);
    StepKeepsInv(s, retry);
    var actions := JournaledReachesTheCommit(t, w);
    OwnStepsAreOrderly(t, w, actions, builds, false);
    var rest := Steps(w, actions);
    var u := After(t, rest);
    OneOrderly(s, retry, w, builds);
    OrderlyCompose(s, [retry], rest, w, builds, false);
    OneOrderly(u, commit, w, builds);
    OrderlyCompose(s, [retry] + rest, [commit], w, builds, false);
    assert OnlyActs(w, [retry] + rest + [commit]);
    assert After(s, [retry] + rest + [commit]).flows[w].receipt.Some?;
  }

  lemma OneOrderly(s: World, step: Step, w: WorkflowId, builds: Builder)
    requires Enabled(s, step) && OrderlyStep(s, step, w, builds, false)
    ensures Allowed(s, [step]) && Orderly(s, [step], w, builds, false) && After(s, [step]) == Apply(s, step)
  {
    var t := Apply(s, step);
    hide Enabled, Apply, OrderlyStep;
    assert [step][1..] == [] && Allowed(t, []) && After(t, []) == t && Orderly(t, [], w, builds, false);
  }

  /** Any planner that names each table by one column or row by row. */
  ghost function KeyedPlans(schema: string -> PlanDigest.Keying): Builder {
    (v: WorkflowId, rows: Rows, plan: Plan) => PlanDigest.Keyed(plan, schema)
  }

  /** Whatever the planner, as long as it names each table by one column or row by row: the workflow's own plan decides.
      Retries over unchanged rows reach the receipt exactly when foreign keys do not refuse that plan. */
  lemma RetryErasesIff(s: World, w: WorkflowId, schema: string -> PlanDigest.Keying)
    requires Inv(s) && w in s.flows && s.flows[w].task.None? && HasStatus(s.flows[w], FailedRetryable)
    requires PlanDigest.Keyed(s.flows[w].plan, schema) && PlanDigest.ClearlyListed(s.flows[w].plan, schema)
    ensures CanErase(s, w, KeyedPlans(schema)) <==>
      Runs(s.shared.references, s.flows[w].plan.operations, s.shared.rows)
  {
    var builds := KeyedPlans(schema);
    var f, sh := s.flows[w], s.shared;
    FlowFitsIn(s, w);
    RetryErasesAsBuiltIff(s, w, builds);
    if Runnable(w, f.row.value.request, sh.references, sh.rows, builds) {
      var plan: Plan :| builds(w, sh.rows, plan) && Confirmed(f.row.value.request, plan)
        && Runs(sh.references, plan.operations, sh.rows);
      PlanDigest.SameDigestSameEffect(plan, f.plan, schema);
      assert PlanDigest.RunTheSame(plan.operations, f.plan.operations);
    }
    if Runs(sh.references, f.plan.operations, sh.rows) {
      assert builds(w, sh.rows, f.plan) && Confirmed(f.row.value.request, f.plan);
    }
  }

  // ---------------------------------------------------------------- what a retry can achieve among others

  /** No receipt yet, and a retry under way has a plan that some database gave. */
  ghost predicate Ready(w: WorkflowId, f: Flow, sh: Shared, request: Request, builds: Builder, calm: bool) {
    if calm then OnItsWay(w, f, sh, request, builds)
    else
      && f.receipt.None? && f.row.Some? && f.row.value.request == request
      && (UnderWay(f) ==> exists rows: Rows :: builds(w, rows, f.plan))
  }

  lemma OwnStepReady(w: WorkflowId, f: Flow, sh: Shared, a: Action, request: Request, builds: Builder)
    requires FlowFits(f, sh) && MayAct(f, sh, a) && Ready(w, f, sh, request, builds, false)
    requires a.BeginRetry? ==> builds(w, sh.rows, a.plan)
    ensures a.CommitReceipt? ==> Retriable(w, request, sh.references, builds, false)
    ensures !a.CommitReceipt? ==> Ready(w, FlowAfter(f, sh, a), SharedAfter(w, f, sh, a), request, builds, false)
    ensures SharedAfter(w, f, sh, a).references == sh.references
  {
    hide Reached, FilesAccounted, Confirmed, Refused, NextSwept;
  }

  lemma StepReady(s: World, step: Step, w: WorkflowId, request: Request, builds: Builder, calm: bool)
    requires Inv(s) && w in s.flows && Ready(w, s.flows[w], s.shared, request, builds, calm)
    requires Enabled(s, step) && OrderlyStep(s, step, w, builds, calm)
    ensures w in Apply(s, step).flows && Apply(s, step).shared.references == s.shared.references
    ensures step == Act(w, CommitReceipt) ==> Retriable(w, request, s.shared.references, builds, calm)
    ensures step != Act(w, CommitReceipt) ==>
      Ready(w, Apply(s, step).flows[w], Apply(s, step).shared, request, builds, calm)
  {
    FlowFitsIn(s, w);
    hide Inv, MayAct, FlowAfter, FlowFits, Runnable, Retriable, RunsUpTo;
    if step.Act? && step.w == w {
      if calm {
        OwnStepOnItsWay(w, s.flows[w], s.shared, step.action, request, builds);
        if step.action.CommitReceipt? { RunnableIsRetriable(w, request, s.shared.references, s.shared.rows, builds); }
      } else {
        OwnStepReady(w, s.flows[w], s.shared, step.action, request, builds);
      }
    }
  }

  lemma RunnableIsRetriable(w: WorkflowId, request: Request, references: References, rows: Rows, builds: Builder)
    requires Runnable(w, request, references, rows, builds)
    ensures Retriable(w, request, references, builds, true)
  {}

  lemma {:induction false} ReceiptNeedsARetriablePlan(
    s: World, steps: seq<Step>, w: WorkflowId, request: Request, builds: Builder, calm: bool)
    requires Inv(s) && w in s.flows && Ready(w, s.flows[w], s.shared, request, builds, calm)
    requires Allowed(s, steps) && Orderly(s, steps, w, builds, calm)
    requires w in After(s, steps).flows && After(s, steps).flows[w].receipt.Some?
    ensures Retriable(w, request, s.shared.references, builds, calm)
    decreases |steps|
  {
    if steps != [] {
      hide Inv, Ready, Retriable, Enabled, Apply, OrderlyStep;
      StepReady(s, steps[0], w, request, builds, calm);
      if steps[0] != Act(w, CommitReceipt) {
        StepKeepsInv(s, steps[0]);
        ReceiptNeedsARetriablePlan(Apply(s, steps[0]), steps[1..], w, request, builds, calm);
      }
    }
  }

  lemma FailedNeedsARetriablePlan(s: World, w: WorkflowId, builds: Builder, calm: bool)
    requires Inv(s) && w in s.flows && s.flows[w].task.None? && HasStatus(s.flows[w], FailedRetryable)
    requires CanComplete(s, w, builds, calm)
    ensures Retriable(w, s.flows[w].row.value.request, s.shared.references, builds, calm)
  {
    var steps :| Allowed(s, steps) && Orderly(s, steps, w, builds, calm)
                 && w in After(s, steps).flows && HasStatus(After(s, steps).flows[w], Completed);
    RunKeepsInv(s, steps);
    FlowFitsIn(s, w);
    FlowFitsIn(After(s, steps), w);
    ReceiptNeedsARetriablePlan(s, steps, w, s.flows[w].row.value.request, builds, calm);
  }

  // ---------------------------------------------------------------- workflows nothing can move any more

  /** The flow is the same after every run, whatever this and other workflows do. */
  ghost predicate Unmovable(s: World, w: WorkflowId)
    requires w in s.flows
  {
    forall steps :: Allowed(s, steps) ==> w in After(s, steps).flows && After(s, steps).flows[w] == s.flows[w]
  }

  /** No coroutine, and no call that would start one: there is no row, or it is RUNNING or COMPLETED, or it is AWAITING
      behind a later checkpoint. */
  predicate Stuck(f: Flow, checkpoint: nat) {
    && f.task.None?
    && (f.row.None? || HasStatus(f, Running) || HasStatus(f, Completed)
        || (HasStatus(f, AwaitingBaseline) && f.receipt != Some(checkpoint)))
  }

  lemma StuckStays(s: World, step: Step, w: WorkflowId)
    requires Inv(s) && w in s.flows && Stuck(s.flows[w], s.shared.checkpoint) && Enabled(s, step)
    ensures w in Apply(s, step).flows && Apply(s, step).flows[w] == s.flows[w]
    ensures Stuck(s.flows[w], Apply(s, step).shared.checkpoint)
  {
    hide KeysUnique, ReceiptsNumbered;
    CheckpointOnlyGrows(s, step);
    assert FlowFits(s.flows[w], s.shared);
  }

  lemma {:induction false} StuckForever(s: World, steps: seq<Step>, w: WorkflowId)
    requires Inv(s) && w in s.flows && Stuck(s.flows[w], s.shared.checkpoint) && Allowed(s, steps)
    ensures w in After(s, steps).flows && After(s, steps).flows[w] == s.flows[w]
    decreases |steps|
  {
    if steps != [] {
      hide Inv, Stuck, Apply, Enabled;
      StuckStays(s, steps[0], w);
      StepKeepsInv(s, steps[0]);
      StuckForever(Apply(s, steps[0]), steps[1..], w);
    }
  }

  /** Every other idle workflow has a step of its own: retry, resume or completion. */
  lemma NotStuckMoves(s: World, w: WorkflowId)
    requires Inv(s) && w in s.flows && s.flows[w].task.None? && !Stuck(s.flows[w], s.shared.checkpoint)
    ensures !Unmovable(s, w)
  {
    hide KeysUnique, ReceiptsNumbered;
    var f := s.flows[w];
    assert FlowFits(f, s.shared);
    var a := match f.row.value.status
      case FailedRetryable => BeginRetry(f.plan)
      case Partial => BeginResume
      case _ => BeginComplete;
    assert Enabled(s, Act(w, a));
    Then(s, [], Act(w, a));
    var steps := [] + [Act(w, a)];
    assert After(s, steps).flows[w].task.Some?;
  }

  /** An idle workflow can never change again exactly when it has no row, or is RUNNING, or COMPLETED, or AWAITING with
      a checkpoint that has been passed. */
  lemma UnmovableIff(s: World, w: WorkflowId)
    requires Inv(s) && w in s.flows && s.flows[w].task.None?
    ensures Unmovable(s, w) <==>
      match s.flows[w].row
      case None => true
      case Some(row) => row.status == Running || row.status == Completed
                        || (row.status == AwaitingBaseline && s.flows[w].receipt != Some(s.shared.checkpoint))
  {
    if Stuck(s.flows[w], s.shared.checkpoint) {
      forall steps | Allowed(s, steps)
        ensures w in After(s, steps).flows && After(s, steps).flows[w] == s.flows[w]
      {
        StuckForever(s, steps, w);
      }
    } else {
      NotStuckMoves(s, w);
    }
  }

  /** After the receipt, in the phases whose status is AWAITING. */
  predicate AwaitingPhase(p: Phase) {
    match p
    case Purging(_, resumed) => !resumed
    case Purged(resumed) => !resumed
    case PurgeFailed | ResumeCommitted | Completing => true
    case _ => false
  }

  /** A stop, or an exception nobody catches, leaves a workflow that can never change again exactly in these phases:
      between marker and row, between row and receipt, on the way back from there, behind the COMPLETED commit, and
      anywhere it is AWAITING once a later checkpoint has been issued.  Files, rows and marker stay as they are. */
  lemma StopIsFinalIff(s: World, w: WorkflowId)
    requires Inv(s) && Enabled(s, Act(w, Stop))
    ensures var p := s.flows[w].task.value.phase;
      Unmovable(Apply(s, Act(w, Stop)), w) <==>
        p.Announced? || p.Journaling? || p.Executing? || p.RolledBack? || p.Discarded? || p.CompletionCommitted?
        || (AwaitingPhase(p) && s.flows[w].receipt != Some(s.shared.checkpoint))
    ensures Apply(s, Act(w, Stop)).shared == s.shared
  {
    var t := Apply(s, Act(w, Stop));
    StepKeepsInv(s, Act(w, Stop));
    UnmovableIff(t, w);
    hide Inv, Unmovable;
    StoppedFlow(s, w);
  }

  lemma StoppedFlow(s: World, w: WorkflowId)
    requires Inv(s) && Enabled(s, Act(w, Stop))
    ensures StatusInPhase(s.flows[w], s.flows[w].task.value.phase)
    ensures Apply(s, Act(w, Stop)) == World(s.flows[w := s.flows[w].(task := None)], s.shared)
  {
    assert FlowFits(s.flows[w], s.shared);
  }

  /** An idle workflow can still be completed exactly when it is FAILED_RETRYABLE and some database gives a plan with
      its digest, and in calm does not refuse it; or AWAITING or PARTIAL at the highest checkpoint; or completed. */
  lemma IdleCompletesIff(s: World, w: WorkflowId, builds: Builder, calm: bool)
    requires Inv(s) && w in s.flows && s.flows[w].task.None? && s.flows[w].row.Some?
    ensures CanComplete(s, w, builds, calm) <==>
      match s.flows[w].row.value.status
      case FailedRetryable => Retriable(w, s.flows[w].row.value.request, s.shared.references, builds, calm)
      case Completed => true
      case AwaitingBaseline | Partial => s.flows[w].receipt == Some(s.shared.checkpoint)
      case Running => false
  {
    assert FlowFits(s.flows[w], s.shared);
    hide Retriable, KeysUnique, ReceiptsNumbered;
    match s.flows[w].row.value.status
    case FailedRetryable =>
      if Retriable(w, s.flows[w].row.value.request, s.shared.references, builds, calm) {
        RetryCompletes(s, w, builds, calm);
      }
      if CanComplete(s, w, builds, calm) { FailedNeedsARetriablePlan(s, w, builds, calm); }
    case Completed =>
      assert Allowed(s, []) && After(s, []) == s && Orderly(s, [], w, builds, calm);
    case AwaitingBaseline | Partial =>
      if s.flows[w].receipt == Some(s.shared.checkpoint) {
        if HasStatus(s.flows[w], Partial) { TopPartialCompletes(s, w, builds, calm); }
        else { TopAwaitingCompletes(s, w, builds, calm); }
      } else {
        forall steps | Allowed(s, steps)
          ensures w in After(s, steps).flows && !HasStatus(After(s, steps).flows[w], Completed)
        {
          SupersededNeverCompletes(s, steps, w);
        }
      }
    case Running =>
      forall steps | Allowed(s, steps)
        ensures w in After(s, steps).flows && !HasStatus(After(s, steps).flows[w], Completed)
      {
        StuckForever(s, steps, w);
      }
  }

  /** Only steps of w itself, and the rest of the application. */
  predicate OnlyOf(w: WorkflowId, step: Step) {
    step.OtherWork? || (step.Act? && step.w == w)
  }

  /** The marker such a workflow leaves stays until another workflow's step replaces or removes it. */
  lemma {:induction false} LeftMarkerStays(s: World, steps: seq<Step>, w: WorkflowId)
    requires Inv(s) && w in s.flows && Stuck(s.flows[w], s.shared.checkpoint) && Allowed(s, steps)
    requires forall i :: 0 <= i < |steps| ==> OnlyOf(w, steps[i])
    ensures After(s, steps).shared.marker == s.shared.marker
    decreases |steps|
  {
    if steps != [] {
      assert OnlyOf(w, steps[0]) && forall i :: 0 <= i < |steps[1..]| ==> steps[1..][i] == steps[i + 1];
      StuckTakesNoStep(s, steps[0], w);
      StuckStays(s, steps[0], w);
      StepKeepsInv(s, steps[0]);
      LeftMarkerStays(Apply(s, steps[0]), steps[1..], w);
    }
  }

  lemma StuckTakesNoStep(s: World, step: Step, w: WorkflowId)
    requires Inv(s) && w in s.flows && Stuck(s.flows[w], s.shared.checkpoint) && Enabled(s, step) && OnlyOf(w, step)
    ensures step.OtherWork?
  {
    hide KeysUnique, ReceiptsNumbered;
    assert FlowFits(s.flows[w], s.shared);
  }

  /** A stop between marker and row: no workflow is there to retry, resume or complete, and until another one comes
      along the marker keeps announcing an erasure. */
  lemma StopBeforeTheRow(s: World, w: WorkflowId, request: Request, plan: Plan, steps: seq<Step>)
    requires Inv(s) && Enabled(s, Announce(w, request, plan))
    ensures var start := [Announce(w, request, plan), Act(w, Stop)];
      && Allowed(s, start)
      && var t := After(s, start);
      && Inv(t) && t.flows == s.flows[w := Flow(None, None, None, None, plan)]
      && t.shared == s.shared.(marker := Some(Marker(w, None, Running)))
      && !Unfinished(t.flows[w]) && Unmovable(t, w)
      && (Allowed(t, steps) && (forall i :: 0 <= i < |steps| ==> OnlyOf(w, steps[i])) ==>
            After(t, steps).shared.marker == Some(Marker(w, None, Running)))
  {
    var announce, stop := Announce(w, request, plan), Act(w, Stop);
    var t := StoppedAtOnce(s, w, request, plan);
    RunKeepsInv(s, [announce, stop]);
    UnmovableIff(t, w);
    if Allowed(t, steps) && forall i :: 0 <= i < |steps| ==> OnlyOf(w, steps[i]) {
      LeftMarkerStays(t, steps, w);
    }
  }

  lemma StoppedAtOnce(s: World, w: WorkflowId, request: Request, plan: Plan) returns (t: World)
    requires Enabled(s, Announce(w, request, plan))
    ensures Allowed(s, [Announce(w, request, plan), Act(w, Stop)])
    ensures t == After(s, [Announce(w, request, plan), Act(w, Stop)])
    ensures t.flows == s.flows[w := Flow(None, None, None, None, plan)]
    ensures t.shared == s.shared.(marker := Some(Marker(w, None, Running)))
  {
    var announce := Announce(w, request, plan);
    var s1 := Apply(s, announce);
    t := World(s.flows[w := Flow(None, None, None, None, plan)], s.shared.(marker := Some(Marker(w, None, Running))));
    ThenTo(s, [], s, announce, s1);
    assert s1.flows[w := Flow(None, None, None, None, plan)] == t.flows;
    ThenTo(s, [] + [announce], s1, Act(w, Stop), t);
    assert [] + [announce] + [Act(w, Stop)] == [announce, Act(w, Stop)];
  }

  /** One erasure at a time, a workflow stopped between row and receipt keeps the system fail-closed for ever. */
  lemma StoppedKeepsTheMarkerForever(s: World, steps: seq<Step>, w: WorkflowId)
    requires Inv(s) && Guarded(s) && OneBusy(s) && Allowed(s, steps) && OneAtATime(s, steps)
    requires w in s.flows && s.flows[w].task.None? && HasStatus(s.flows[w], Running)
    ensures After(s, steps).shared.marker.Some?
  {
    AlwaysFailClosed(s, steps);
    StuckForever(s, steps, w);
    assert Unfinished(After(s, steps).flows[w]);
  }

  // ---------------------------------------------------------------- stops behind the receipt

  /** The receipt is committed and files are still journalled, but the status is not PARTIAL and no purge is running. */
  predicate Stranded(f: Flow) {
    && f.receipt.Some? && f.journal.Some? && (HasStatus(f, AwaitingBaseline) || HasStatus(f, Completed))
    && (f.task.Some? ==> f.task.value.phase.Completing? || f.task.value.phase.CompletionCommitted?)
  }

  /** A stop strands the journal exactly in the first purge, or on the way from its failure to PARTIAL. */
  lemma StopStrandsTheJournalIff(s: World, w: WorkflowId)
    requires Inv(s) && Enabled(s, Act(w, Stop))
    ensures var f := s.flows[w];
      !Stranded(f) && Stranded(Apply(s, Act(w, Stop)).flows[w]) <==>
        f.journal.Some? && (f.task.value.phase.PurgeFailed?
                            || (f.task.value.phase.Purging? && !f.task.value.phase.resumed))
  {
    hide KeysUnique, ReceiptsNumbered, FilesAccounted;
    assert FlowFits(s.flows[w], s.shared);
  }

  /** A stranded journal is never purged: it is still there, unchanged, after any run. */
  lemma {:induction false} StrandedForever(s: World, steps: seq<Step>, w: WorkflowId)
    requires Inv(s) && w in s.flows && Stranded(s.flows[w]) && Allowed(s, steps)
    ensures w in After(s, steps).flows && Stranded(After(s, steps).flows[w])
    ensures After(s, steps).flows[w].journal == s.flows[w].journal
    decreases |steps|
  {
    if steps != [] {
      hide Inv, Stranded, Apply, Enabled;
      StrandedStays(s, steps[0], w);
      StepKeepsInv(s, steps[0]);
      StrandedForever(Apply(s, steps[0]), steps[1..], w);
    }
  }

  lemma StrandedStays(s: World, step: Step, w: WorkflowId)
    requires Inv(s) && w in s.flows && Stranded(s.flows[w]) && Enabled(s, step)
    ensures w in Apply(s, step).flows && Stranded(Apply(s, step).flows[w])
    ensures Apply(s, step).flows[w].journal == s.flows[w].journal
  {
    hide KeysUnique, ReceiptsNumbered, FlowAfter, SharedAfter, MayAct, Stranded;
    assert FlowFits(s.flows[w], s.shared);
    if step.Act? && step.w == w { OwnStepWhenStranded(s.flows[w], s.shared, step.action); }
  }

  lemma OwnStepWhenStranded(f: Flow, sh: Shared, a: Action)
    requires FlowFits(f, sh) && MayAct(f, sh, a) && Stranded(f)
    ensures Stranded(FlowAfter(f, sh, a)) && FlowAfter(f, sh, a).journal == f.journal
  {
    hide FilesAccounted;
  }

  /** An idle committed workflow with a journal can still be purged exactly when its status is PARTIAL, the only
      status the resume acts on. */
  lemma PurgeCanFinishIffPartial(s: World, w: WorkflowId)
    requires Inv(s) && w in s.flows && s.flows[w].task.None? && s.flows[w].receipt.Some? && s.flows[w].journal.Some?
    ensures (exists steps :: Allowed(s, steps) && w in After(s, steps).flows && After(s, steps).flows[w].journal.None?)
        <==> HasStatus(s.flows[w], Partial)
  {
    assert FlowFits(s.flows[w], s.shared);
    if HasStatus(s.flows[w], Partial) {
      var actions := ResumeFinishesThePurge(s, w);
      assert Allowed(s, Steps(w, actions)) && After(s, Steps(w, actions)).flows[w].journal.None?;
    } else {
      forall steps | Allowed(s, steps)
        ensures w in After(s, steps).flows && After(s, steps).flows[w].journal.Some?
      {
        StrandedForever(s, steps, w);
      }
    }
  }

  /** The operational completion does not look at the journal: it completes a stranded workflow and removes the
      marker with every file still in place. */
  lemma StrandedWorkflowStillCompletes(s: World, w: WorkflowId)
    requires Inv(s) && w in s.flows && s.flows[w].task.None? && s.flows[w].journal.Some?
      && HasStatus(s.flows[w], AwaitingBaseline)
    requires s.flows[w].receipt == Some(s.shared.checkpoint) && MarkerIs(s.shared, w, s.flows[w].receipt)
    ensures Allowed(s, Steps(w, COMPLETION))
    ensures var t := After(s, Steps(w, COMPLETION));
      w in t.flows && t.shared == s.shared.(marker := None) && HasStatus(t.flows[w], Completed)
        && t.flows[w].journal == s.flows[w].journal
  {
    assert FlowFits(s.flows[w], s.shared);
    CompletionRuns(w, s.flows[w], s.shared);
    OwnRun(s, w, COMPLETION);
  }
}
