/** Turn acceptance of book learning as a transition system.  Requests of one activity are served by any number of
    tasks; each task lists the transcript, reads the next turn number, decides and commits in separate steps, and
    between two steps of one task any step of another may come. */
module BookTranscripts {
  import opened Prelude

  /** The transcript session id is uuid5 over user and activity, taken to be injective. */
  datatype Session = Session(user: string, activity: string)

  datatype Kind = Learner | SystemStart

  datatype ActionRef = ActionRef(id: string, schemaVersion: string)

  /** The teaching context id is uuid5 over user and idempotency key, taken to be injective. */
  datatype ContextId = ContextId(user: string, key: string)

  datatype TeachingAction = TeachingAction(ref: ActionRef, decisionId: string, activity: string, context: ContextId)

  datatype DecisionTrace = DecisionTrace(decisionId: string, selected: Option<ActionRef>)

  /** `text` is the learner text as stored: stripped, and None for a system start. */
  datatype Request = Request(
    session: Session, goal: string, plan: string, planVersion: int, turnId: string, kind: Kind, text: Option<string>,
      key: string)

  /** A transcript row, with its stored context's previous action; `basis` is how many turns the deciding task had
      listed. */
  datatype Turn = Turn(
    request: Request, number: nat, action: TeachingAction, trace: DecisionTrace, previous: Option<ActionRef>,
      basis: nat)

  /** How far a task has come. */
  datatype Task =
    | Admitted(request: Request)                                                  // key not yet in the transcript
    | Listed(request: Request, listed: seq<Turn>)
    | Numbered(request: Request, listed: seq<Turn>, number: nat)
    | Decided(request: Request, listed: seq<Turn>, number: nat, previous: Option<ActionRef>)

  type TaskId = nat

  /** Committed rows in commit order, the tables of actions and traces, and the tasks under way. */
  datatype World = World(
    turns: seq<Turn>, actions: map<string, TeachingAction>, traces: map<string, DecisionTrace>,
      tasks: map<TaskId, Task>)

  datatype Step =
    | Admit(id: TaskId, request: Request)
    | List(id: TaskId)
    | ReadNumber(id: TaskId)
    | Decide(id: TaskId)
    | Commit(id: TaskId, action: TeachingAction, trace: DecisionTrace)
    | GiveUp(id: TaskId)                                                           // any error, or a cancelled request

  const EMPTY: World := World([], map[], map[], map[])

  /** The rows of one session. */
  function Rows(turns: seq<Turn>, session: Session): seq<Turn> {
    if turns == [] then []
    else
      var rest := Rows(turns[..|turns| - 1], session);
      if turns[|turns| - 1].request.session == session then rest + [turns[|turns| - 1]] else rest
  }

  function Latest(rows: seq<Turn>): nat {
    if rows == [] then 0
    else
      var before, last := Latest(rows[..|rows| - 1]), rows[|rows| - 1].number;
      if last > before then last else before
  }

  lemma RowsAfter(turns: seq<Turn>, t: Turn, session: Session)
    ensures Rows(turns + [t], session) == if t.request.session == session then Rows(turns, session) + [t]
      else Rows(turns, session)
  {
    assert (turns + [t])[..|turns|] == turns;
  }

  /** The action the next decision has to follow, once it passes the service's three checks. */
  function Follows(rows: seq<Turn>, traces: map<string, DecisionTrace>, session: Session)
    : Result<Option<ActionRef>, FollowError>
  {
    if rows == [] then Ok(None)
    else
      var prior := rows[|rows| - 1].action;
      if prior.activity != session.activity then Err(ScopeMismatch)
      else if prior.decisionId !in traces then Err(TraceMissing)
      else if traces[prior.decisionId].selected != Some(prior.ref) then Err(TraceActionMismatch)
      else Ok(Some(prior.ref))
  }

  datatype FollowError = ScopeMismatch | TraceMissing | TraceActionMismatch

  predicate KeyTaken(turns: seq<Turn>, user: string, key: string) {
    exists i :: 0 <= i < |turns| && turns[i].request.session.user == user && turns[i].request.key == key
  }

  /** The table's three unique constraints. */
  predicate Insertable(turns: seq<Turn>, t: Turn) {
    && !KeyTaken(turns, t.request.session.user, t.request.key)
    && forall i :: 0 <= i < |turns| && turns[i].request.session == t.request.session ==>
         turns[i].number != t.number && turns[i].request.turnId != t.request.turnId
  }

  /** Actions and traces are written once: a second write under the id has to carry the same content. */
  predicate Storable(s: World, action: TeachingAction, trace: DecisionTrace) {
    && (action.ref.id in s.actions ==> s.actions[action.ref.id] == action)
    && (trace.decisionId in s.traces ==> s.traces[trace.decisionId] == trace)
  }

  function NewTurn(t: Task, action: TeachingAction, trace: DecisionTrace): Turn
    requires t.Decided?
  {
    Turn(t.request, t.number, action, trace, t.previous, |t.listed|)
  }

  predicate Enabled(s: World, step: Step) {
    match step
    case Admit(id, request) =>
      id !in s.tasks && !KeyTaken(s.turns, request.session.user, request.key)
    case List(id) =>
      id in s.tasks && s.tasks[id].Admitted?
      && (s.tasks[id].request.kind == SystemStart ==> Rows(s.turns, s.tasks[id].request.session) == [])
    case ReadNumber(id) => id in s.tasks && s.tasks[id].Listed?
    case Decide(id) =>
      id in s.tasks && s.tasks[id].Numbered? && Follows(s.tasks[id].listed, s.traces, s.tasks[id].request.session).Ok?
    case Commit(id, action, trace) =>
      && id in s.tasks && s.tasks[id].Decided?
      && action.context == ContextId(s.tasks[id].request.session.user, s.tasks[id].request.key)
      && Storable(s, action, trace) && Insertable(s.turns, NewTurn(s.tasks[id], action, trace))
    case GiveUp(id) => id in s.tasks
  }

  function Apply(s: World, step: Step): World
    requires Enabled(s, step)
  {
    match step
    case Admit(id, request) => s.(tasks := s.tasks[id := Admitted(request)])
    case List(id) =>
      var r := s.tasks[id].request;
      s.(tasks := s.tasks[id := Listed(r, Rows(s.turns, r.session))])
    case ReadNumber(id) =>
      var t := s.tasks[id];
      s.(tasks := s.tasks[id := Numbered(t.request, t.listed, Latest(Rows(s.turns, t.request.session)) + 1)])
    case Decide(id) =>
      var t := s.tasks[id];
      s.(tasks := s.tasks[id := Decided(t.request, t.listed, t.number,
        Follows(t.listed, s.traces, t.request.session).value)])
    case Commit(id, action, trace) =>
      World(s.turns + [NewTurn(s.tasks[id], action, trace)], s.actions[action.ref.id := action],
            s.traces[trace.decisionId := trace], s.tasks - {id})
    case GiveUp(id) => s.(tasks := s.tasks - {id})
  }

  predicate Allowed(s: World, steps: seq<Step>)
    decreases |steps|
  {
    steps == [] || (Enabled(s, steps[0]) && Allowed(Apply(s, steps[0]), steps[1..]))
  }

  function After(s: World, steps: seq<Step>): World
    requires Allowed(s, steps)
    decreases |steps|
  {
    if steps == [] then s else After(Apply(s, steps[0]), steps[1..])
  }

  // ---------------------------------------------------------------- the invariant

  /** What a session's transcript looks like: numbered 1..n, each turn decided on a prefix it had listed. */
  predicate WellKept(rows: seq<Turn>, traces: map<string, DecisionTrace>, session: Session) {
    forall i :: 0 <= i < |rows| ==> TurnFits(rows, i, traces, session)
  }

  predicate TurnFits(rows: seq<Turn>, i: nat, traces: map<string, DecisionTrace>, session: Session)
    requires i < |rows|
  {
    && rows[i].number == i + 1 && rows[i].request.session == session
    && rows[i].basis <= i
    && (rows[i].request.kind == SystemStart ==> rows[i].basis == 0)
    && Follows(rows[..rows[i].basis], traces, session) == Ok(rows[i].previous)
  }

  predicate TaskFits(t: Task, rows: seq<Turn>, traces: map<string, DecisionTrace>) {
    && (!t.Admitted? ==> t.listed <= rows && (t.request.kind == SystemStart ==> t.listed == []))
    && (t.Numbered? || t.Decided? ==> |t.listed| < t.number <= |rows| + 1)
    && (t.Decided? ==> Follows(t.listed, traces, t.request.session) == Ok(t.previous))
  }

  predicate KeysUnique(turns: seq<Turn>) {
    forall i, j :: 0 <= i < j < |turns| ==>
      turns[i].request.session.user != turns[j].request.session.user || turns[i].request.key != turns[j].request.key
  }

  predicate ActionsRecorded(s: World) {
    forall i :: 0 <= i < |s.turns| ==> ActionRecorded(s.turns[i], s.actions)
  }

  predicate ActionRecorded(t: Turn, actions: map<string, TeachingAction>) {
    && t.action.ref.id in actions && actions[t.action.ref.id] == t.action
    && t.action.context == ContextId(t.request.session.user, t.request.key)
  }

  ghost predicate Inv(s: World) {
    && (forall session :: WellKept(Rows(s.turns, session), s.traces, session))
    && (forall id :: id in s.tasks ==> TaskFits(s.tasks[id], Rows(s.turns, s.tasks[id].request.session), s.traces))
    && KeysUnique(s.turns) && ActionsRecorded(s)
  }

  lemma {:induction false} LatestIsLength(rows: seq<Turn>, traces: map<string, DecisionTrace>, session: Session, n: nat)
    requires WellKept(rows, traces, session) && n <= |rows|
    ensures Latest(rows[..n]) == n
  {
    if n > 0 {
      LatestIsLength(rows, traces, session, n - 1);
      assert rows[..n][..n - 1] == rows[..n - 1];
      assert TurnFits(rows, n - 1, traces, session);
    }
  }

  lemma FollowsIsStable(rows: seq<Turn>, traces: map<string, DecisionTrace>, trace: DecisionTrace, session: Session)
    requires trace.decisionId in traces ==> traces[trace.decisionId] == trace
    requires Follows(rows, traces, session).Ok?
    ensures Follows(rows, traces[trace.decisionId := trace], session) == Follows(rows, traces, session)
  {}

  /** A committed turn can only get the number right after the last one. */
  lemma CommitsAreConsecutive(s: World, id: TaskId, action: TeachingAction, trace: DecisionTrace)
    requires Inv(s) && Enabled(s, Commit(id, action, trace))
    ensures s.tasks[id].number == |Rows(s.turns, s.tasks[id].request.session)| + 1
  {
    var t := s.tasks[id];
    var rows := Rows(s.turns, t.request.session);
    if t.number <= |rows| {
      assert TurnFits(rows, t.number - 1, s.traces, t.request.session);
      RowsAreTurns(s.turns, t.request.session, t.number - 1);
    }
  }

  lemma {:induction false} RowsAreTurns(turns: seq<Turn>, session: Session, i: nat)
    requires i < |Rows(turns, session)|
    ensures exists j :: 0 <= j < |turns| && turns[j] == Rows(turns, session)[i] && turns[j].request.session == session
  {
    var last := turns[|turns| - 1];
    if i < |Rows(turns[..|turns| - 1], session)| {
      RowsAreTurns(turns[..|turns| - 1], session, i);
    } else {
      assert turns[|turns| - 1] == Rows(turns, session)[i];
    }
  }

  // ---------------------------------------------------------------- every step keeps it

  lemma TurnKeepsFitting(rows: seq<Turn>, i: nat, traces: map<string, DecisionTrace>, trace: DecisionTrace,
      session: Session, more: seq<Turn>)
    requires i < |rows| && TurnFits(rows, i, traces, session)
    requires trace.decisionId in traces ==> traces[trace.decisionId] == trace
    ensures TurnFits(rows + more, i, traces[trace.decisionId := trace], session)
  {
    var b := rows[i].basis;
    assert (rows + more)[..b] == rows[..b];
    FollowsIsStable(rows[..b], traces, trace, session);
  }

  lemma NewTurnFits(rows: seq<Turn>, t: Task, traces: map<string, DecisionTrace>, action: TeachingAction,
      trace: DecisionTrace)
    requires t.Decided? && TaskFits(t, rows, traces) && t.number == |rows| + 1
    requires trace.decisionId in traces ==> traces[trace.decisionId] == trace
    ensures TurnFits(rows + [NewTurn(t, action, trace)], |rows|, traces[trace.decisionId := trace], t.request.session)
  {
    assert (rows + [NewTurn(t, action, trace)])[..|t.listed|] == t.listed;
    FollowsIsStable(t.listed, traces, trace, t.request.session);
  }

  lemma RowsKeepFitting(rows: seq<Turn>, traces: map<string, DecisionTrace>, trace: DecisionTrace, session: Session,
      more: seq<Turn>)
    requires WellKept(rows, traces, session) && |more| <= 1
    requires trace.decisionId in traces ==> traces[trace.decisionId] == trace
    requires more != [] ==> TurnFits(rows + more, |rows|, traces[trace.decisionId := trace], session)
    ensures WellKept(rows + more, traces[trace.decisionId := trace], session)
  {
    var all, stored := rows + more, traces[trace.decisionId := trace];
    forall i | 0 <= i < |all|
      ensures TurnFits(all, i, stored, session)
    {
      if i < |rows| { TurnKeepsFitting(rows, i, traces, trace, session, more); }
    }
  }

  lemma CommitKeepsRows(s: World, id: TaskId, action: TeachingAction, trace: DecisionTrace, session: Session)
    requires Inv(s) && Enabled(s, Commit(id, action, trace))
    ensures WellKept(Rows(Apply(s, Commit(id, action, trace)).turns, session),
      Apply(s, Commit(id, action, trace)).traces, session)
  {
    var t, rows := NewTurn(s.tasks[id], action, trace), Rows(s.turns, session);
    RowsAfter(s.turns, t, session);
    if t.request.session == session {
      CommitsAreConsecutive(s, id, action, trace);
      NewTurnFits(rows, s.tasks[id], s.traces, action, trace);
      RowsKeepFitting(rows, s.traces, trace, session, [t]);
    } else {
      RowsKeepFitting(rows, s.traces, trace, session, []);
      assert rows + [] == rows;
    }
  }

  lemma CommitKeepsTasks(s: World, id: TaskId, action: TeachingAction, trace: DecisionTrace, other: TaskId)
    requires Inv(s) && Enabled(s, Commit(id, action, trace)) && other in s.tasks
    ensures TaskFits(s.tasks[other], Rows(Apply(s, Commit(id, action, trace)).turns, s.tasks[other].request.session),
                     Apply(s, Commit(id, action, trace)).traces)
  {
    var t := s.tasks[other];
    assert TaskFits(t, Rows(s.turns, t.request.session), s.traces);
    RowsAfter(s.turns, NewTurn(s.tasks[id], action, trace), t.request.session);
    if t.Decided? { FollowsIsStable(t.listed, s.traces, trace, t.request.session); }
  }

  lemma CommitKeepsActions(s: World, id: TaskId, action: TeachingAction, trace: DecisionTrace)
    requires Inv(s) && Enabled(s, Commit(id, action, trace))
    ensures ActionsRecorded(Apply(s, Commit(id, action, trace)))
  {
    var t := Apply(s, Commit(id, action, trace));
    forall i | 0 <= i < |t.turns|
      ensures ActionRecorded(t.turns[i], t.actions)
    {
      if i < |s.turns| { assert ActionRecorded(s.turns[i], s.actions); }
    }
  }

  lemma CommitKeepsInv(s: World, id: TaskId, action: TeachingAction, trace: DecisionTrace)
    requires Inv(s) && Enabled(s, Commit(id, action, trace))
    ensures Inv(Apply(s, Commit(id, action, trace)))
  {
    var t := Apply(s, Commit(id, action, trace));
    forall session
      ensures WellKept(Rows(t.turns, session), t.traces, session)
    {
      CommitKeepsRows(s, id, action, trace, session);
    }
    forall other | other in t.tasks
      ensures TaskFits(t.tasks[other], Rows(t.turns, t.tasks[other].request.session), t.traces)
    {
      CommitKeepsTasks(s, id, action, trace, other);
    }
    CommitKeepsActions(s, id, action, trace);
  }

  lemma TaskStepKeepsInv(s: World, step: Step)
    requires Inv(s) && Enabled(s, step) && !step.Commit?
    ensures Inv(Apply(s, step))
  {
    var t := Apply(s, step);
    assert t.turns == s.turns && t.traces == s.traces && t.actions == s.actions;
    forall id | id in t.tasks
      ensures TaskFits(t.tasks[id], Rows(t.turns, t.tasks[id].request.session), t.traces)
    {
      if id in s.tasks {
        var rows := Rows(s.turns, s.tasks[id].request.session);
        assert TaskFits(s.tasks[id], rows, s.traces);
        LatestIsLength(rows, s.traces, s.tasks[id].request.session, |rows|);
        assert rows[..|rows|] == rows;
      }
    }
  }

  lemma StepKeepsInv(s: World, step: Step)
    requires Inv(s) && Enabled(s, step)
    ensures Inv(Apply(s, step))
  {
    if step.Commit? {
      CommitKeepsInv(s, step.id, step.action, step.trace);
    } else {
      TaskStepKeepsInv(s, step);
    }
  }

  lemma {:induction false} RunKeepsInv(s: World, steps: seq<Step>)
    requires Inv(s) && Allowed(s, steps)
    ensures Inv(After(s, steps))
    decreases |steps|
  {
    if steps != [] {
      StepKeepsInv(s, steps[0]);
      RunKeepsInv(Apply(s, steps[0]), steps[1..]);
    }
  }

  ghost predicate Reachable(s: World) {
    exists steps :: Allowed(EMPTY, steps) && s == After(EMPTY, steps)
  }

  lemma ReachableIsKept(s: World)
    requires Reachable(s)
    ensures Inv(s)
  {
    var steps :| Allowed(EMPTY, steps) && s == After(EMPTY, steps);
    RunKeepsInv(EMPTY, steps);
  }

  // ---------------------------------------------------------------- numbering

  /** Whatever the interleaving, every session's turns are numbered 1..n in commit order, and no key, and no number
      within a session, occurs twice. */
  lemma EveryTranscriptIsNumbered(s: World, session: Session)
    requires Reachable(s)
    ensures forall i :: 0 <= i < |Rows(s.turns, session)| ==> Rows(s.turns, session)[i].number == i + 1
    ensures Latest(Rows(s.turns, session)) == |Rows(s.turns, session)|
    ensures KeysUnique(s.turns)
  {
    ReachableIsKept(s);
    var rows := Rows(s.turns, session);
    assert WellKept(rows, s.traces, session);
    LatestIsLength(rows, s.traces, session, |rows|);
    assert rows[..|rows|] == rows;
    forall i | 0 <= i < |rows|
      ensures rows[i].number == i + 1
    {
      assert TurnFits(rows, i, s.traces, session);
    }
  }

  // ---------------------------------------------------------------- the chain of decisions

  /** Turn i was decided as the successor of turn i - 1: its context carries that turn's action, whose stored
      decision trace selected exactly that action, and it is a system start only if it is the first. */
  predicate Chained(rows: seq<Turn>, i: nat, traces: map<string, DecisionTrace>, session: Session)
    requires i < |rows|
  {
    && (rows[i].request.kind == SystemStart ==> i == 0)
    && if i == 0 then rows[i].previous == None
       else
         var prior := rows[i - 1].action;
         && rows[i].previous == Some(prior.ref) && prior.activity == session.activity
         && prior.decisionId in traces && traces[prior.decisionId].selected == Some(prior.ref)
  }

  lemma {:induction false} RowsHaveOwnActions(s: World, session: Session, i: nat, j: nat)
    requires Inv(s) && i < j < |Rows(s.turns, session)|
    ensures Rows(s.turns, session)[i].action.ref.id != Rows(s.turns, session)[j].action.ref.id
  {
    var rows := Rows(s.turns, session);
    RowsAreTurns(s.turns, session, i);
    RowsAreTurns(s.turns, session, j);
    var k :| 0 <= k < |s.turns| && s.turns[k] == rows[i];
    var l :| 0 <= l < |s.turns| && s.turns[l] == rows[j];
    assert WellKept(rows, s.traces, session);
    assert TurnFits(rows, i, s.traces, session) && TurnFits(rows, j, s.traces, session);
    assert k != l;
    assert ActionRecorded(s.turns[k], s.actions) && ActionRecorded(s.turns[l], s.actions);
  }

  /** A turn is chained to the one before it exactly when its task had listed every earlier turn. */
  lemma ChainedIffEverythingWasListed(s: World, session: Session, i: nat)
    requires Reachable(s) && i < |Rows(s.turns, session)|
    ensures Chained(Rows(s.turns, session), i, s.traces, session) <==> Rows(s.turns, session)[i].basis == i
  {
    ReachableIsKept(s);
    var rows := Rows(s.turns, session);
    assert WellKept(rows, s.traces, session) && TurnFits(rows, i, s.traces, session);
    var b := rows[i].basis;
    if 0 < b < i {
      assert rows[..b][b - 1] == rows[b - 1];
      RowsHaveOwnActions(s, session, b - 1, i - 1);
    }
  }

  /** The number read fits the list read exactly when no turn of the session was committed in between. */
  lemma NumberFitsListIff(s: World, id: TaskId)
    requires Reachable(s) && Enabled(s, ReadNumber(id))
    ensures var t := s.tasks[id]; var rows := Rows(s.turns, t.request.session);
      Apply(s, ReadNumber(id)).tasks[id].number == |t.listed| + 1 <==> rows == t.listed
  {
    ReachableIsKept(s);
    EveryTranscriptIsNumbered(s, s.tasks[id].request.session);
  }

  /** Both reads of every task see one snapshot. */
  predicate OnSnapshots(s: World, steps: seq<Step>)
    requires Allowed(s, steps)
    decreases |steps|
  {
    steps == []
    || ((steps[0].ReadNumber? ==> Rows(s.turns, s.tasks[steps[0].id].request.session) == s.tasks[steps[0].id].listed)
        && OnSnapshots(Apply(s, steps[0]), steps[1..]))
  }

  predicate AllListed(s: World) {
    && (forall i :: 0 <= i < |s.turns| ==> s.turns[i].basis + 1 == s.turns[i].number)
    && forall id :: id in s.tasks && (s.tasks[id].Numbered? || s.tasks[id].Decided?) ==>
      |s.tasks[id].listed| + 1 == s.tasks[id].number
  }

  lemma {:induction false} SnapshotsListEverything(s: World, steps: seq<Step>)
    requires Inv(s) && AllListed(s) && Allowed(s, steps) && OnSnapshots(s, steps)
    ensures AllListed(After(s, steps))
    decreases |steps|
  {
    if steps != [] {
      SnapshotStepListsEverything(s, steps[0]);
      StepKeepsInv(s, steps[0]);
      SnapshotsListEverything(Apply(s, steps[0]), steps[1..]);
    }
  }

  lemma SnapshotStepListsEverything(s: World, step: Step)
    requires Inv(s) && AllListed(s) && Enabled(s, step)
    requires step.ReadNumber? ==> Rows(s.turns, s.tasks[step.id].request.session) == s.tasks[step.id].listed
    ensures AllListed(Apply(s, step))
  {
    if step.ReadNumber? {
      var rows := Rows(s.turns, s.tasks[step.id].request.session);
      assert WellKept(rows, s.traces, s.tasks[step.id].request.session);
      LatestIsLength(rows, s.traces, s.tasks[step.id].request.session, |rows|);
      assert rows[..|rows|] == rows;
    }
  }

  /** When each task reads from one snapshot, every transcript is one chain: turn k follows turn k - 1, and a system
      start is turn 1 only. */
  lemma SnapshotsMakeOneChain(steps: seq<Step>, session: Session)
    requires Allowed(EMPTY, steps) && OnSnapshots(EMPTY, steps)
    ensures var t := After(EMPTY, steps); var rows := Rows(t.turns, session);
      forall i :: 0 <= i < |rows| ==> Chained(rows, i, t.traces, session)
  {
    var t := After(EMPTY, steps);
    var rows := Rows(t.turns, session);
    SnapshotsListEverything(EMPTY, steps);
    forall i | 0 <= i < |rows|
      ensures Chained(rows, i, t.traces, session)
    {
      RowsAreTurns(t.turns, session, i);
      EveryTranscriptIsNumbered(t, session);
      ChainedIffEverythingWasListed(t, session, i);
    }
  }

  lemma {:induction false} RunsCompose(s: World, first: seq<Step>, second: seq<Step>)
    requires Allowed(s, first) && Allowed(After(s, first), second)
    ensures Allowed(s, first + second) && After(s, first + second) == After(After(s, first), second)
    decreases |first|
  {
    if first == [] {
      assert first + second == second;
    } else {
      assert (first + second)[0] == first[0] && (first + second)[1..] == first[1..] + second;
      RunsCompose(Apply(s, first[0]), first[1..], second);
    }
  }

  lemma StepTo(steps: seq<Step>, s: World, step: Step)
    requires Allowed(EMPTY, steps) && After(EMPTY, steps) == s && Enabled(s, step)
    ensures Allowed(EMPTY, steps + [step]) && After(EMPTY, steps + [step]) == Apply(s, step)
  {
    assert [step][1..] == [] && Allowed(Apply(s, step), []) && After(Apply(s, step), []) == Apply(s, step);
    assert Allowed(s, [step]) && After(s, [step]) == Apply(s, step);
    RunsCompose(EMPTY, steps, [step]);
  }

  function Opening(user: string, activity: string, key: string, kind: Kind): Request {
    Request(Session(user, activity), "goal", "plan", 1, key, kind, None, key)
  }

  function Reply(r: Request): TeachingAction {
    TeachingAction(ActionRef(r.key, "1"), r.key, r.session.activity, ContextId(r.session.user, r.key))
  }

  function TraceOf(r: Request): DecisionTrace {
    DecisionTrace(r.key, Some(ActionRef(r.key, "1")))
  }

  /** A first turn, from admission to commit, while another task may be waiting. */
  lemma AcceptFirst(steps: seq<Step>, s: World, id: TaskId, r: Request) returns (longer: seq<Step>)
    requires Allowed(EMPTY, steps) && After(EMPTY, steps) == s && s.turns == [] && s.actions == map[]
      && s.traces == map[]
    requires id !in s.tasks
    ensures Allowed(EMPTY, longer)
    ensures After(EMPTY, longer) == World([Turn(r, 1, Reply(r), TraceOf(r), None, 0)], map[r.key := Reply(r)],
      map[r.key := TraceOf(r)], s.tasks)
  {
    var s1 := s.(tasks := s.tasks[id := Admitted(r)]);
    StepTo(steps, s, Admit(id, r));
    longer := steps + [Admit(id, r)];
    var s2 := s.(tasks := s.tasks[id := Listed(r, [])]);
    assert s1.tasks[id := Listed(r, [])] == s2.tasks;
    StepTo(longer, s1, List(id));
    longer := longer + [List(id)];
    var s3 := s.(tasks := s.tasks[id := Numbered(r, [], 1)]);
    assert s2.tasks[id := Numbered(r, [], 1)] == s3.tasks;
    StepTo(longer, s2, ReadNumber(id));
    longer := longer + [ReadNumber(id)];
    var s4 := s.(tasks := s.tasks[id := Decided(r, [], 1, None)]);
    assert s3.tasks[id := Decided(r, [], 1, None)] == s4.tasks;
    StepTo(longer, s3, Decide(id));
    longer := longer + [Decide(id)];
    assert s4.tasks - {id} == s.tasks;
    StepTo(longer, s4, Commit(id, Reply(r), TraceOf(r)));
    longer := longer + [Commit(id, Reply(r), TraceOf(r))];
  }

  /** The list and the number are read by two statements.  Where each sees its own moment, a system start that
      listed an empty transcript is accepted as turn 2, behind a learner turn it does not follow. */
  lemma StatementReadsMisplaceTheStart(user: string, activity: string) returns (steps: seq<Step>)
    ensures Allowed(EMPTY, steps)
    ensures var t := After(EMPTY, steps); var rows := Rows(t.turns, Session(user, activity));
      |rows| == 2 && rows[1].request.kind == SystemStart && !Chained(rows, 1, t.traces, Session(user, activity))
  {
    var a, b := Opening(user, activity, "a", SystemStart), Opening(user, activity, "b", Learner);
    var s1 := EMPTY.(tasks := map[1 := Admitted(a)]);
    StepTo([], EMPTY, Admit(1, a));
    var s2 := EMPTY.(tasks := map[1 := Listed(a, [])]);
    StepTo([] + [Admit(1, a)], s1, List(1));
    steps := AcceptFirst([] + [Admit(1, a)] + [List(1)], s2, 2, b);
    steps := AcceptLate(steps, After(EMPTY, steps), a, b);
  }

  lemma AcceptLate(steps: seq<Step>, s: World, a: Request, b: Request) returns (longer: seq<Step>)
    requires Allowed(EMPTY, steps) && After(EMPTY, steps) == s
    requires a.session == b.session && a.key != b.key && a.turnId != b.turnId && a.kind == SystemStart
    requires s == World([Turn(b, 1, Reply(b), TraceOf(b), None, 0)], map[b.key := Reply(b)], map[b.key := TraceOf(b)],
      map[1 := Listed(a, [])])
    ensures Allowed(EMPTY, longer)
    ensures Rows(After(EMPTY, longer).turns, a.session) == [Turn(b, 1, Reply(b), TraceOf(b), None, 0),
      Turn(a, 2, Reply(a), TraceOf(a), None, 0)]
  {
    var first, second := Turn(b, 1, Reply(b), TraceOf(b), None, 0), Turn(a, 2, Reply(a), TraceOf(a), None, 0);
    longer := DecideLate(steps, s, a, first);
    var late := s.(tasks := map[1 := Decided(a, [], 2, None)]);
    StepTo(longer, late, Commit(1, Reply(a), TraceOf(a)));
    longer := longer + [Commit(1, Reply(a), TraceOf(a))];
    RowsAfter([], first, a.session);
    assert [] + [first] == [first];
    RowsAfter([first], second, a.session);
    assert [first] + [second] == [first, second];
  }

  lemma DecideLate(steps: seq<Step>, s: World, a: Request, first: Turn) returns (longer: seq<Step>)
    requires Allowed(EMPTY, steps) && After(EMPTY, steps) == s && first.number == 1
      && first.request.session == a.session
    requires s.turns == [first] && s.tasks == map[1 := Listed(a, [])]
    ensures Allowed(EMPTY, longer) && After(EMPTY, longer) == s.(tasks := map[1 := Decided(a, [], 2, None)])
  {
    OneRow(first);
    StepTo(steps, s, ReadNumber(1));
    longer := steps + [ReadNumber(1)];
    assert s.tasks[1 := Numbered(a, [], 2)] == map[1 := Numbered(a, [], 2)];
    longer := DecideFirst(longer, s.(tasks := map[1 := Numbered(a, [], 2)]), a);
  }

  lemma OneRow(first: Turn)
    ensures Rows([first], first.request.session) == [first] && Latest([first]) == first.number
  {
    RowsAfter([], first, first.request.session);
    assert [] + [first] == [first];
    assert Latest([first][..0]) == 0;
  }

  lemma DecideFirst(steps: seq<Step>, s: World, a: Request) returns (longer: seq<Step>)
    requires Allowed(EMPTY, steps) && After(EMPTY, steps) == s && s.tasks == map[1 := Numbered(a, [], 2)]
    ensures Allowed(EMPTY, longer) && After(EMPTY, longer) == s.(tasks := map[1 := Decided(a, [], 2, None)])
  {
    StepTo(steps, s, Decide(1));
    longer := steps + [Decide(1)];
    assert s.tasks[1 := Decided(a, [], 2, None)] == map[1 := Decided(a, [], 2, None)];
  }
}
