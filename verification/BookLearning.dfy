/** The book-learning service as one request sees it: accepting a turn, showing the transcript as a conversation, and
    following up on a shown message. */
module BookLearning {
  import opened Prelude
  import opened BookTranscripts

  /** What str.strip() removes. */
  predicate IsSpace(c: char) {
    || '\U{09}' <= c <= '\U{0D}' || '\U{1C}' <= c <= '\U{20}' || c == '\U{85}' || c == '\U{A0}' || c == '\U{1680}'
    || '\U{2000}' <= c <= '\U{200A}' || c == '\U{2028}' || c == '\U{2029}' || c == '\U{202F}' || c == '\U{205F}'
      || c == '\U{3000}'
  }

  function Strip(s: string): (r: string)
    ensures r != "" ==> !IsSpace(r[0]) && !IsSpace(r[|r| - 1])
    ensures |r| <= |s|
  {
    if s == "" then ""
    else if IsSpace(s[0]) then Strip(s[1..])
    else if IsSpace(s[|s| - 1]) then Strip(s[..|s| - 1])
    else s
  }

  predicate AllSpace(s: string) {
    forall i :: 0 <= i < |s| ==> IsSpace(s[i])
  }

  /** Only white space is cut off, at the two ends. */
  lemma {:induction false} StripCutsOnlySpace(s: string) returns (left: string, right: string)
    ensures s == left + Strip(s) + right && AllSpace(left) && AllSpace(right)
    decreases |s|
  {
    hide IsSpace;
    left, right := "", "";
    if s != "" {
      if IsSpace(s[0]) {
        left, right := StripCutsOnlySpace(s[1..]);
        left := [s[0]] + left;
        assert s == [s[0]] + s[1..];
      } else if IsSpace(s[|s| - 1]) {
        left, right := StripCutsOnlySpace(s[..|s| - 1]);
        right := right + [s[|s| - 1]];
        assert s == s[..|s| - 1] + [s[|s| - 1]];
      }
    }
  }

  /** Nothing is left exactly of white space. */
  lemma StripsToNothingIff(s: string)
    ensures Strip(s) == "" <==> AllSpace(s)
  {
    var left, right := StripCutsOnlySpace(s);
    hide IsSpace, Strip;
    if Strip(s) == "" {
      assert s == left + right;
    } else {
      assert s[|left|] == Strip(s)[0];
      StripEndsInText(s);
    }
  }

  lemma StripEndsInText(s: string)
    requires Strip(s) != ""
    ensures !IsSpace(Strip(s)[0])
  {}

  lemma StripIsIdempotent(s: string)
    ensures Strip(Strip(s)) == Strip(s)
  {}

  /** A request as it arrives; the text is not yet stripped. */
  datatype Incoming = Incoming(
    session: Session, goal: string, plan: string, planVersion: int, turnId: string, kind: Kind, text: Option<string>,
      key: string)

  /** The text a repetition is compared by: `learner_text.strip() if learner_text else None`. */
  function ComparedText(text: Option<string>): Option<string> {
    if text.None? || text.value == "" then None else Some(Strip(text.value))
  }

  function Stored(r: Incoming): Request {
    var text := match r.kind
      case SystemStart => None
      case Learner => Some(Strip(if r.text.Some? then r.text.value else ""));
    Request(r.session, r.goal, r.plan, r.planVersion, r.turnId, r.kind, text, r.key)
  }

  function Compared(r: Incoming): Request {
    Request(r.session, r.goal, r.plan, r.planVersion, r.turnId, r.kind, ComparedText(r.text), r.key)
  }

  predicate HasKey(t: Turn, user: string, key: string) {
    t.request.session.user == user && t.request.key == key
  }

  /** The row accepted under a key. */
  function Find(turns: seq<Turn>, user: string, key: string): (found: Option<Turn>)
    ensures found.None? <==> !KeyTaken(turns, user, key)
    ensures found.Some? ==> found.value in turns && HasKey(found.value, user, key)
  {
    if turns == [] then None
    else
      var last := turns[|turns| - 1];
      if HasKey(last, user, key) then assert turns[|turns| - 1] == last; Some(last)
      else
        var before := Find(turns[..|turns| - 1], user, key);
        assert before.None? ==> forall i :: 0 <= i < |turns| - 1 ==> turns[..|turns| - 1][i] == turns[i];
        before
  }

  lemma {:induction false} FindIsStable(turns: seq<Turn>, more: seq<Turn>, user: string, key: string)
    requires KeysUnique(turns + more) && KeyTaken(turns, user, key)
    ensures Find(turns + more, user, key) == Find(turns, user, key)
  {
    if more == [] {
      assert turns + more == turns;
    } else {
      var init, last := more[..|more| - 1], more[|more| - 1];
      assert turns + more == (turns + init) + [last];
      assert (turns + more)[..|turns + more| - 1] == turns + init;
      var i :| 0 <= i < |turns| && HasKey(turns[i], user, key);
      assert (turns + more)[i] == turns[i] && (turns + more)[|turns + more| - 1] == last;
      assert forall j, k ::
        0 <= j < k < |turns + init| ==>
          (turns + init)[j] == (turns + more)[j] && (turns + init)[k] == (turns + more)[k];
      FindIsStable(turns, init, user, key);
    }
  }

  lemma {:induction false} TurnsOnlyGrow(s: World, steps: seq<Step>)
    requires Allowed(s, steps)
    ensures s.turns <= After(s, steps).turns
    decreases |steps|
  {
    if steps != [] {
      TurnsOnlyGrow(Apply(s, steps[0]), steps[1..]);
    }
  }

  /** Once a turn is accepted under a key, every later request under that key meets that same turn. */
  lemma AcceptedForGood(s: World, steps: seq<Step>, user: string, key: string)
    requires Reachable(s) && Allowed(s, steps) && KeyTaken(s.turns, user, key)
    ensures Find(After(s, steps).turns, user, key) == Find(s.turns, user, key)
  {
    ReachableIsKept(s);
    RunKeepsInv(s, steps);
    TurnsOnlyGrow(s, steps);
    var t := After(s, steps);
    assert t.turns == s.turns + t.turns[|s.turns|..];
    FindIsStable(s.turns, t.turns[|s.turns|..], user, key);
  }

  /** To the service alone, sending exactly the same request again replays its turn, except for a system start sent with
      a text: the text is not stored, so the repetition would be reported as a conflict. */
  lemma RepetitionIsReplayedIff(r: Incoming)
    requires r.kind == Learner ==> Stored(r).text != Some("")
    ensures Compared(r) == Stored(r) <==> r.kind == Learner || r.text == None || r.text == Some("")
  {}

  /** What the request contract of the API lets through: a learner turn with a text, a system start without one. */
  predicate ContractAccepts(r: Incoming) {
    match r.kind
    case Learner => r.text.Some? && Strip(r.text.value) != ""
    case SystemStart => r.text.None?
  }

  /** So every request that reaches the service through its contract is replayed when it is repeated. */
  lemma AcceptedRequestsAreReplayed(r: Incoming)
    requires ContractAccepts(r)
    ensures Compared(r) == Stored(r)
  {
    RepetitionIsReplayedIff(r);
  }

  datatype Decision = Decision(action: TeachingAction, trace: DecisionTrace)

  datatype AcceptError =
    | IdempotencyConflict | NotReady | StartAlreadyAccepted | TextRequired | Unchained(reason: FollowError)
    | TeachingFailed | ImmutableConflict | TurnIdTaken

  /** What the checks before the decision say, in the service's order. */
  function Admission(s: World, r: Incoming, ready: bool): Result<Option<ActionRef>, AcceptError> {
    var rows := Rows(s.turns, r.session);
    if !ready then Err(NotReady)
    else if r.kind == SystemStart && rows != [] then Err(StartAlreadyAccepted)
    else if r.kind == Learner && Stored(r).text == Some("") then Err(TextRequired)
    else
      match Follows(rows, s.traces, r.session)
      case Err(e) => Err(Unchained(e))
      case Ok(previous) => Ok(previous)
  }

  predicate TurnIdUsed(turns: seq<Turn>, r: Incoming) {
    exists i :: 0 <= i < |turns| && turns[i].request.session == r.session && turns[i].request.turnId == r.turnId
  }

  /** Why an admitted turn can still fail to be stored. */
  function StoreError(s: World, r: Incoming, decision: Option<Decision>): Option<AcceptError> {
    if decision.None? then Some(TeachingFailed)
    else if !Storable(s, decision.value.action, decision.value.trace) then Some(ImmutableConflict)
    else if TurnIdUsed(s.turns, r) then Some(TurnIdTaken)
    else None
  }

  /** One undisturbed acceptance: the state after it and the answer. */
  function Accept(s: World, r: Incoming, ready: bool, decision: Option<Decision>): (World, Result<Turn, AcceptError>) {
    var known := Find(s.turns, r.session.user, r.key);
    if known.Some? then (s, if Compared(r) == known.value.request then Ok(known.value) else Err(IdempotencyConflict))
    else
      var admission := Admission(s, r, ready);
      if admission.Err? then (s, Err(admission.error))
      else if StoreError(s, r, decision).Some? then (s, Err(StoreError(s, r, decision).value))
      else
        var d, rows := decision.value, Rows(s.turns, r.session);
        var t := Turn(Stored(r), |rows| + 1, d.action, d.trace, admission.value, |rows|);
        (World(s.turns + [t], s.actions[d.action.ref.id := d.action], s.traces[d.trace.decisionId := d.trace], s.tasks),
          Ok(t))
  }

  // ---------------------------------------------------------------- what the answer rests on

  ghost predicate Blank(text: Option<string>) {
    text.None? || AllSpace(text.value)
  }

  /** The last turn belongs to the activity, and its trace is there and selected its action. */
  ghost predicate Continues(rows: seq<Turn>, traces: map<string, DecisionTrace>, session: Session) {
    rows != [] ==>
      var prior := rows[|rows| - 1].action;
      && prior.activity == session.activity
      && prior.decisionId in traces && traces[prior.decisionId].selected == Some(prior.ref)
  }

  /** The service is ready, a system start comes first, and a learner says something. */
  ghost predicate Opens(rows: seq<Turn>, r: Incoming, ready: bool) {
    ready && (r.kind == SystemStart ==> rows == []) && (r.kind == Learner ==> !Blank(r.text))
  }

  /** Action and trace are new, or the same as those stored under their ids. */
  ghost predicate Recordable(actions: map<string, TeachingAction>, traces: map<string, DecisionTrace>, d: Decision) {
    && (d.action.ref.id in actions ==> actions[d.action.ref.id] == d.action)
    && (d.trace.decisionId in traces ==> traces[d.trace.decisionId] == d.trace)
  }

  ghost predicate TurnIdFree(turns: seq<Turn>, r: Incoming) {
    forall i :: 0 <= i < |turns| && turns[i].request.session == r.session ==> turns[i].request.turnId != r.turnId
  }

  /** The answer to a request under a new key: each refusal exactly when its check is the first to fail. */
  ghost predicate Answers(s: World, r: Incoming, ready: bool, decision: Option<Decision>,
                          result: Result<Turn, AcceptError>) {
    var rows := Rows(s.turns, r.session);
    var opens, goesOn := Opens(rows, r, ready), Opens(rows, r, ready) && Continues(rows, s.traces, r.session);
    && (result == Err(NotReady) <==> !ready)
    && (result == Err(StartAlreadyAccepted) <==> ready && r.kind == SystemStart && rows != [])
    && (result == Err(TextRequired) <==> ready && r.kind == Learner && Blank(r.text))
    && (result.Err? && result.error.Unchained? <==> opens && !goesOn)
    && (result == Err(TeachingFailed) <==> goesOn && decision.None?)
    && (result == Err(ImmutableConflict) <==>
          goesOn && decision.Some? && !Recordable(s.actions, s.traces, decision.value))
    && (result == Err(TurnIdTaken) <==>
          goesOn && decision.Some? && Recordable(s.actions, s.traces, decision.value) && !TurnIdFree(s.turns, r))
    && (result.Ok? <==>
          goesOn && decision.Some? && Recordable(s.actions, s.traces, decision.value) && TurnIdFree(s.turns, r))
    && result != Err(IdempotencyConflict)
  }

  /** Which of the three chain checks failed first. */
  ghost predicate NamesTheBreak(rows: seq<Turn>, traces: map<string, DecisionTrace>, session: Session,
                                reason: FollowError) {
    && rows != []
    && var prior := rows[|rows| - 1].action;
       match reason
       case ScopeMismatch => prior.activity != session.activity
       case TraceMissing => prior.activity == session.activity && prior.decisionId !in traces
       case TraceActionMismatch =>
         && prior.activity == session.activity && prior.decisionId in traces
         && traces[prior.decisionId].selected != Some(prior.ref)
  }

  /** The request as stored: every field as sent, the text stripped, and none for a system start. */
  ghost predicate StoredAs(r: Incoming, q: Request) {
    && q.session == r.session && q.goal == r.goal && q.plan == r.plan && q.planVersion == r.planVersion
    && q.turnId == r.turnId && q.kind == r.kind && q.key == r.key
    && (r.kind == SystemStart ==> q.text == None)
    && (r.kind == Learner && r.text.Some? ==> q.text == Some(Strip(r.text.value)))
  }

  /** A repetition says what the stored request says. */
  ghost predicate RepeatsIt(r: Incoming, q: Request) {
    && q.session == r.session && q.goal == r.goal && q.plan == r.plan && q.planVersion == r.planVersion
    && q.turnId == r.turnId && q.kind == r.kind && q.key == r.key
    && (r.text.None? || r.text.value == "" ==> q.text == None)
    && (r.text.Some? && r.text.value != "" ==> q.text == Some(Strip(r.text.value)))
  }

  /** The turn an acceptance adds, and that it adds nothing else. */
  ghost predicate Adds(s: World, after: World, r: Incoming, d: Decision, t: Turn) {
    var rows := Rows(s.turns, r.session);
    && after.turns == s.turns + [t] && StoredAs(r, t.request)
    && t.number == |rows| + 1 && t.action == d.action && t.trace == d.trace
    && t.previous == (if rows == [] then None else Some(rows[|rows| - 1].action.ref))
    && after.actions == s.actions[d.action.ref.id := d.action]
    && after.traces == s.traces[d.trace.decisionId := d.trace]
  }

  /** What a round does, without saying how: a known key is answered from its turn, a new one by the checks above. */
  ghost predicate Rounds(s: World, after: World, r: Incoming, ready: bool, decision: Option<Decision>,
                         result: Result<Turn, AcceptError>) {
    if KeyTaken(s.turns, r.session.user, r.key) then
      && after == s
      && exists i :: 0 <= i < |s.turns| && HasKey(s.turns[i], r.session.user, r.key)
           && result == if RepeatsIt(r, s.turns[i].request) then Ok(s.turns[i]) else Err(IdempotencyConflict)
    else
      && Answers(s, r, ready, decision, result)
      && (result.Ok? ==> Adds(s, after, r, decision.value, result.value))
      && (result.Err? ==> after == s)
      && (result.Err? && result.error.Unchained? ==>
            NamesTheBreak(Rows(s.turns, r.session), s.traces, r.session, result.error.reason))
  }

  lemma AcceptRounds(s: World, r: Incoming, ready: bool, decision: Option<Decision>)
    ensures var (after, result) := Accept(s, r, ready, decision); Rounds(s, after, r, ready, decision, result)
  {
    var (after, result) := Accept(s, r, ready, decision);
    var known := Find(s.turns, r.session.user, r.key);
    if known.Some? {
      RepeatsIff(r, known.value.request);
      var i :| 0 <= i < |s.turns| && s.turns[i] == known.value;
    } else {
      if r.kind == Learner { BlankIff(r); }
      hide Strip, IsSpace, Rows, Find, KeyTaken;
    }
  }

  lemma RepeatsIff(r: Incoming, q: Request)
    ensures Compared(r) == q <==> RepeatsIt(r, q)
  {}

  lemma BlankIff(r: Incoming)
    requires r.kind == Learner
    ensures Stored(r).text == Some("") <==> Blank(r.text)
  {
    StripsToNothingIff(if r.text.Some? then r.text.value else "");
  }

  /** The teaching result acts on the context saved for this request. */
  predicate OwnContext(r: Incoming, decision: Option<Decision>) {
    decision.Some? ==> decision.value.action.context == ContextId(r.session.user, r.key)
  }

  /** An undisturbed acceptance is five steps of the protocol. */
  lemma AcceptIsARun(s: World, r: Incoming, ready: bool, decision: Option<Decision>)
    requires Reachable(s) && s.tasks == map[] && OwnContext(r, decision)
    ensures Reachable(Accept(s, r, ready, decision).0)
  {
    if Find(s.turns, r.session.user, r.key).None? && Admission(s, r, ready).Ok? && StoreError(s, r, decision).None? {
      var steps :| Allowed(EMPTY, steps) && s == After(EMPTY, steps);
      ReachableIsKept(s);
      hide Allowed, After, Enabled, Find, Storable, Strip, OwnContext, Inv;
      NewTurnIsARun(s, steps, r, decision.value, Admission(s, r, ready).value);
    }
  }

  lemma NewTurnIsARun(s: World, steps: seq<Step>, r: Incoming, d: Decision, previous: Option<ActionRef>)
    requires Allowed(EMPTY, steps) && s == After(EMPTY, steps) && Inv(s) && s.tasks == map[] && OwnContext(r, Some(d))
    requires !KeyTaken(s.turns, r.session.user, r.key) && StoreError(s, r, Some(d)).None?
    requires r.kind == SystemStart ==> Rows(s.turns, r.session) == []
    requires Follows(Rows(s.turns, r.session), s.traces, r.session) == Ok(previous)
    ensures var rows := Rows(s.turns, r.session);
      var t := Turn(Stored(r), |rows| + 1, d.action, d.trace, previous, |rows|);
      Reachable(World(s.turns + [t], s.actions[d.action.ref.id := d.action], s.traces[d.trace.decisionId := d.trace],
        map[]))
  {
    hide Inv, StoreError, Follows, Rows, Enabled, After, Allowed, KeyTaken;
    var rows := Rows(s.turns, r.session);
    var longer := UpToTheDecision(s, steps, Stored(r), previous);
    var decided := s.(tasks := map[0 := Decided(Stored(r), rows, |rows| + 1, previous)]);
    CommitWouldPass(s, decided, r, d, previous);
    CommitReaches(longer, decided, d);
    assert NewTurn(decided.tasks[0], d.action, d.trace) == Turn(Stored(r), |rows| + 1, d.action, d.trace, previous,
      |rows|);
  }

  lemma CommitReaches(steps: seq<Step>, decided: World, d: Decision)
    requires Allowed(EMPTY, steps) && After(EMPTY, steps) == decided && decided.tasks.Keys == {0}
    requires Enabled(decided, Commit(0, d.action, d.trace))
    ensures Reachable(World(decided.turns + [NewTurn(decided.tasks[0], d.action, d.trace)],
      decided.actions[d.action.ref.id := d.action], decided.traces[d.trace.decisionId := d.trace], map[]))
  {
    StepTo(steps, decided, Commit(0, d.action, d.trace));
    assert decided.tasks - {0} == map[];
  }

  lemma UpToTheDecision(s: World, steps: seq<Step>, q: Request, previous: Option<ActionRef>) returns (longer: seq<Step>)
    requires Allowed(EMPTY, steps) && s == After(EMPTY, steps) && s.tasks == map[]
      && !KeyTaken(s.turns, q.session.user, q.key)
    requires q.kind == SystemStart ==> Rows(s.turns, q.session) == []
    requires Follows(Rows(s.turns, q.session), s.traces, q.session) == Ok(previous)
    ensures Allowed(EMPTY, longer)
    ensures After(EMPTY, longer)
      == s.(tasks := map[0 := Decided(q, Rows(s.turns, q.session), |Rows(s.turns, q.session)| + 1, previous)])
  {
    var rows := Rows(s.turns, q.session);
    assert Reachable(s);
    EveryTranscriptIsNumbered(s, q.session);
    StepTo(steps, s, Admit(0, q));
    longer := steps + [Admit(0, q)];
    var s1 := s.(tasks := map[0 := Admitted(q)]);
    StepTo(longer, s1, List(0));
    longer := longer + [List(0)];
    assert s1.tasks[0 := Listed(q, rows)] == map[0 := Listed(q, rows)];
    var s2 := s.(tasks := map[0 := Listed(q, rows)]);
    longer := NumberAndDecide(s, s2, longer, q, rows, previous);
  }

  lemma NumberAndDecide(s: World, s2: World, steps: seq<Step>, q: Request, rows: seq<Turn>, previous: Option<ActionRef>)
    returns (longer: seq<Step>)
    requires Allowed(EMPTY, steps) && s2 == After(EMPTY, steps) && s2 == s.(tasks := map[0 := Listed(q, rows)])
    requires rows == Rows(s.turns, q.session) && Latest(rows) == |rows|
      && Follows(rows, s.traces, q.session) == Ok(previous)
    ensures Allowed(EMPTY, longer)
    ensures After(EMPTY, longer) == s.(tasks := map[0 := Decided(q, rows, |rows| + 1, previous)])
  {
    StepTo(steps, s2, ReadNumber(0));
    longer := steps + [ReadNumber(0)];
    var s3 := s.(tasks := map[0 := Numbered(q, rows, |rows| + 1)]);
    assert s2.tasks[0 := Numbered(q, rows, |rows| + 1)] == s3.tasks;
    StepTo(longer, s3, Decide(0));
    longer := longer + [Decide(0)];
    assert s3.tasks[0 := Decided(q, rows, |rows| + 1, previous)] == map[0 := Decided(q, rows, |rows| + 1, previous)];
  }

  /** No earlier turn has the next number. */
  lemma CommitWouldPass(s: World, decided: World, r: Incoming, d: Decision, previous: Option<ActionRef>)
    requires Inv(s) && OwnContext(r, Some(d)) && !KeyTaken(s.turns, r.session.user, r.key)
      && StoreError(s, r, Some(d)).None?
    requires var rows := Rows(s.turns, r.session);
      decided == s.(tasks := map[0 := Decided(Stored(r), rows, |rows| + 1, previous)])
    ensures Enabled(decided, Commit(0, d.action, d.trace))
  {
    forall i | 0 <= i < |s.turns| && s.turns[i].request.session == r.session
      ensures s.turns[i].number <= |Rows(s.turns, r.session)|
    {
      var j := TurnIsARow(s.turns, i);
      assert WellKept(Rows(s.turns, r.session), s.traces, r.session);
      assert TurnFits(Rows(s.turns, r.session), j, s.traces, r.session);
    }
  }

  lemma {:induction false} TurnIsARow(turns: seq<Turn>, i: nat) returns (j: nat)
    requires i < |turns|
    ensures j < |Rows(turns, turns[i].request.session)| && Rows(turns, turns[i].request.session)[j] == turns[i]
  {
    if i == |turns| - 1 {
      j := |Rows(turns, turns[i].request.session)| - 1;
    } else {
      assert turns[..|turns| - 1][i] == turns[i];
      j := TurnIsARow(turns[..|turns| - 1], i);
    }
  }

  /** A newly accepted turn is numbered next and chained to the turn before it; any other answer changes nothing. */
  lemma AcceptedTurnIsNext(s: World, r: Incoming, ready: bool, decision: Option<Decision>)
    requires Reachable(s) && s.tasks == map[] && OwnContext(r, decision)
    ensures var (t, result) := Accept(s, r, ready, decision); var rows := Rows(s.turns, r.session);
      || (t == s && (result.Ok? ==> result.value in s.turns && result.value.request == Compared(r)))
      || (result.Ok? && Rows(t.turns, r.session) == rows + [result.value] && result.value.number == |rows| + 1
          && Chained(rows + [result.value], |rows|, t.traces, r.session))
  {
    var (t, result) := Accept(s, r, ready, decision);
    if t != s {
      AcceptIsARun(s, r, ready, decision);
      RowsAfter(s.turns, result.value, r.session);
      ChainedIffEverythingWasListed(t, r.session, |Rows(s.turns, r.session)|);
    }
  }

  // ---------------------------------------------------------------- the conversation view

  /** uuid5 over session and turn number, twice; taken to be injective. */
  datatype MessageId = MessageId(session: Session, number: nat)

  datatype InputRefs = InputRefs(activity: string, planVersion: int, action: ActionRef, turn: MessageId)

  /** A canonical message offers one capability, a follow-up question on its one block. */
  datatype Message = Message(id: MessageId, revision: nat, conversation: Session, sequence: nat, inputRefs: InputRefs)

  const EXPLANATION: string := "explanation"
  const ASK_FOLLOW_UP: string := "ASK_FOLLOW_UP"

  function MessageOf(t: Turn): Message {
    var id := MessageId(t.request.session, t.number);
    Message(id, 1, t.request.session, t.number,
      InputRefs(t.request.session.activity, t.request.planVersion, t.action.ref, id))
  }

  /** The conversation validator. */
  predicate OrderedUnique(messages: seq<Message>) {
    && (forall i, j :: 0 <= i < j < |messages| ==>
          messages[i].id != messages[j].id || messages[i].revision != messages[j].revision)
    && forall i, j :: 0 <= i < j < |messages| ==> messages[i].sequence <= messages[j].sequence
  }

  datatype View = View(messages: seq<Message>, nextTurnNumber: nat)

  // ---------------------------------------------------------------- following up

  /** The capability id is "ask-follow-up:" and the message id. */
  datatype CapabilityId = AskFollowUp(message: MessageId) | Other(text: string)

  datatype Invocation = Invocation(
    message: MessageId, revision: nat, conversation: Session, block: string, capability: CapabilityId,
      actionType: string, expected: InputRefs, text: Option<string>, key: string)

  datatype FollowUpError =
    | MessageNotFound | CapabilityStale | RevisionConflict | ScopeViolation | CapabilityNotFound | InteractionInvalid
    | Refused(cause: AcceptError)

  const MAX_TEXT: nat := 20_000

  function FollowUpRequest(v: Invocation, session: Session, goal: string, plan: string, planVersion: int): Incoming
    requires v.text.Some?
  {
    Incoming(session, goal, plan, planVersion, "interaction-" + v.key, Learner, Some(Strip(v.text.value)), v.key)
  }

  /** The checks before the follow-up is handed to the turn acceptance, in the service's order. */
  function FollowUpCheck(rows: seq<Turn>, keyTaken: bool, index: Option<nat>, v: Invocation): Option<FollowUpError>
    requires index.Some? ==> index.value < |rows|
  {
    if index.None? then Some(MessageNotFound)
    else
      var m := MessageOf(rows[index.value]);
      if index.value != |rows| - 1 && !keyTaken then Some(CapabilityStale)
      else if m.revision != v.revision then Some(RevisionConflict)
      else if m.conversation != v.conversation then Some(ScopeViolation)
      else if v.block != EXPLANATION || v.capability != AskFollowUp(m.id) then Some(CapabilityNotFound)
      else if v.actionType != ASK_FOLLOW_UP then Some(InteractionInvalid)
      else if v.expected != m.inputRefs then Some(CapabilityStale)
      else if v.text.None? || Strip(v.text.value) == "" || |v.text.value| > MAX_TEXT then Some(InteractionInvalid)
      else None
  }

  class BookLearningService {
    var turns: seq<Turn>
    var actions: map<string, TeachingAction>
    var traces: map<string, DecisionTrace>

    function State(): World
      reads this
    {
      World(turns, actions, traces, map[])
    }

    ghost predicate Valid()
      reads this
    {
      Reachable(State())
    }

    constructor ()
      ensures Valid() && State() == EMPTY
    {
      turns, actions, traces := [], map[], map[];
      new;
      assert Allowed(EMPTY, []) && After(EMPTY, []) == State();
    }

    /** The body of the locked section, with nothing in between. */
    method StartTeachingRound(r: Incoming, ready: bool, decision: Option<Decision>)
      returns (result: Result<Turn, AcceptError>)
      requires Valid() && OwnContext(r, decision)
      modifies this
      ensures Valid()
      ensures (State(), result) == old(Accept(State(), r, ready, decision))
      ensures Rounds(old(State()), State(), r, ready, decision, result)
    {
      AcceptRounds(State(), r, ready, decision);
      hide Rounds;
      AcceptIsARun(State(), r, ready, decision);
      EveryTranscriptIsNumbered(State(), r.session);
      var existing := Find(turns, r.session.user, r.key);
      if existing.Some? {
        if existing.value.request != Compared(r) {
          return Err(IdempotencyConflict);
        }
        return Ok(existing.value);
      }
      if !ready {
        return Err(NotReady);
      }
      var listed := Rows(turns, r.session);
      if r.kind == SystemStart && listed != [] {
        return Err(StartAlreadyAccepted);
      }
      var request := Stored(r);
      if r.kind == Learner && request.text == Some("") {
        return Err(TextRequired);
      }
      var number := Latest(Rows(turns, r.session)) + 1;
      var previous := Follows(listed, traces, r.session);
      if previous.Err? {
        return Err(Unchained(previous.error));
      }
      var failure := StoreError(State(), r, decision);
      if failure.Some? {
        return Err(failure.value);
      }
      var action, trace := decision.value.action, decision.value.trace;
      actions := actions[action.ref.id := action];
      traces := traces[trace.decisionId := trace];
      var t := Turn(request, number, action, trace, previous.value, |listed|);
      turns := turns + [t];
      return Ok(t);
    }

    /** The transcript as a conversation always passes the conversation's own validator. */
    method GetTranscript(session: Session) returns (view: View)
      requires Valid()
      ensures OrderedUnique(view.messages) && view.nextTurnNumber == |Rows(turns, session)| + 1
      ensures |view.messages| == |Rows(turns, session)|
      ensures forall i :: 0 <= i < |view.messages| ==>
        var m, t := view.messages[i], Rows(turns, session)[i];
        && m.id == MessageId(session, i + 1) && m.revision == 1 && m.conversation == session && m.sequence == i + 1
        && m.inputRefs == InputRefs(session.activity, t.request.planVersion, t.action.ref, m.id)
    {
      EveryTranscriptIsNumbered(State(), session);
      var records := Rows(turns, session);
      var messages := [];
      for i := 0 to |records|
        invariant |messages| == i
        invariant forall j :: 0 <= j < i ==> messages[j] == MessageOf(records[j])
      {
        messages := messages + [MessageOf(records[i])];
      }
      forall i | 0 <= i < |records|
        ensures records[i].request.session == session && records[i].number == i + 1
      {
        RowIsInPlace(State(), session, i);
      }
      return View(messages, if records != [] then records[|records| - 1].number + 1 else 1);
    }

    /** Finds the shown message among the session's turns. */
    method FindMessage(session: Session, id: MessageId) returns (index: Option<nat>)
      requires Valid()
      ensures index.Some? ==>
                index.value < |Rows(turns, session)| && MessageOf(Rows(turns, session)[index.value]).id == id
      ensures index.None? ==>
                forall i :: 0 <= i < |Rows(turns, session)| ==> MessageOf(Rows(turns, session)[i]).id != id
    {
      var records := Rows(turns, session);
      for i := 0 to |records|
        invariant forall j :: 0 <= j < i ==> MessageOf(records[j]).id != id
      {
        if MessageOf(records[i]).id == id {
          return Some(i);
        }
      }
      return None;
    }

    /** Hands a follow-up question to the turn acceptance when every check passes. */
    method InvokeMessageInteraction(v: Invocation, session: Session, goal: string, plan: string, planVersion: int,
        ready: bool, decision: Option<Decision>)
      returns (result: Result<Turn, FollowUpError>)
      requires Valid() && (v.text.Some? ==> OwnContext(FollowUpRequest(v, session, goal, plan, planVersion), decision))
      modifies this
      ensures Valid()
      ensures (State(), result) == old(FollowUp(State(), v, session, goal, plan, planVersion, ready, decision))
      ensures FollowsUp(old(State()), State(), v, session, goal, plan, planVersion, ready, decision, result)
    {
      FollowUpFollowsUp(State(), v, session, goal, plan, planVersion, ready, decision);
      hide FollowsUp, Rounds;
      var records := Rows(turns, session);
      var index := FindMessage(session, v.message);
      MessageIsAt(State(), session, v.message, index);
      var existing := Find(turns, session.user, v.key);
      if index.None? {
        return Err(MessageNotFound);
      }
      var message := MessageOf(records[index.value]);
      if index.value != |records| - 1 && existing.None? {
        return Err(CapabilityStale);
      }
      if message.revision != v.revision {
        return Err(RevisionConflict);
      }
      if message.conversation != v.conversation {
        return Err(ScopeViolation);
      }
      if v.block != EXPLANATION || v.capability != AskFollowUp(message.id) {
        return Err(CapabilityNotFound);
      }
      if v.actionType != ASK_FOLLOW_UP {
        return Err(InteractionInvalid);
      }
      if v.expected != message.inputRefs {
        return Err(CapabilityStale);
      }
      if v.text.None? || Strip(v.text.value) == "" || |v.text.value| > MAX_TEXT {
        return Err(InteractionInvalid);
      }
      var accepted := StartTeachingRound(FollowUpRequest(v, session, goal, plan, planVersion), ready, decision);
      return match accepted case Ok(t) => Ok(t) case Err(e) => Err(Refused(e));
    }
  }

  /** Where a session shows a message: at its turn number, if at all. */
  function IndexOf(rows: seq<Turn>, session: Session, id: MessageId): Option<nat> {
    if id.session == session && 1 <= id.number <= |rows| then Some(id.number - 1) else None
  }

  lemma MessageIsAt(s: World, session: Session, id: MessageId, index: Option<nat>)
    requires Reachable(s)
    requires index.Some? ==>
               index.value < |Rows(s.turns, session)| && MessageOf(Rows(s.turns, session)[index.value]).id == id
    requires index.None? ==>
               forall i :: 0 <= i < |Rows(s.turns, session)| ==> MessageOf(Rows(s.turns, session)[i]).id != id
    ensures index == IndexOf(Rows(s.turns, session), session, id)
  {
    ReachableIsKept(s);
    var rows := Rows(s.turns, session);
    assert WellKept(rows, s.traces, session);
    if index.Some? { assert TurnFits(rows, index.value, s.traces, session); }
    if id.session == session && 1 <= id.number <= |rows| {
      var i := id.number - 1;
      assert TurnFits(rows, i, s.traces, session);
      assert MessageOf(rows[i]).id == id;
    }
  }

  lemma RowIsInPlace(s: World, session: Session, i: nat)
    requires Reachable(s) && i < |Rows(s.turns, session)|
    ensures Rows(s.turns, session)[i].request.session == session && Rows(s.turns, session)[i].number == i + 1
  {
    ReachableIsKept(s);
    assert WellKept(Rows(s.turns, session), s.traces, session);
    assert TurnFits(Rows(s.turns, session), i, s.traces, session);
  }

  /** What following up does to the transcript, and the answer. */
  function FollowUp(s: World, v: Invocation, session: Session, goal: string, plan: string, planVersion: int,
      ready: bool, decision: Option<Decision>): (World, Result<Turn, FollowUpError>) {
    var rows := Rows(s.turns, session);
    var error := FollowUpCheck(rows, KeyTaken(s.turns, session.user, v.key), IndexOf(rows, session, v.message), v);
    if error.Some? then (s, Err(error.value))
    else
      var (t, accepted) := Accept(s, FollowUpRequest(v, session, goal, plan, planVersion), ready, decision);
      (t, match accepted case Ok(turn) => Ok(turn) case Err(e) => Err(Refused(e)))
  }

  /** The message is one of the session's. */
  ghost predicate Shown(rows: seq<Turn>, session: Session, v: Invocation) {
    v.message.session == session && 1 <= v.message.number <= |rows|
  }

  /** It is the newest, or the key says that it has been followed up before. */
  ghost predicate Followable(rows: seq<Turn>, session: Session, v: Invocation, keyTaken: bool) {
    Shown(rows, session, v) && (v.message.number == |rows| || keyTaken)
  }

  /** Revision, conversation, block and capability are those of the message. */
  ghost predicate Addressed(rows: seq<Turn>, session: Session, v: Invocation, keyTaken: bool) {
    && Followable(rows, session, v, keyTaken) && v.revision == 1 && v.conversation == session
    && v.block == "explanation" && v.capability == AskFollowUp(v.message)
  }

  /** And it is asked as offered, about what the message rested on. */
  ghost predicate Current(rows: seq<Turn>, session: Session, v: Invocation, keyTaken: bool) {
    && Addressed(rows, session, v, keyTaken) && v.actionType == "ASK_FOLLOW_UP"
    && v.expected == InputRefs(session.activity, rows[v.message.number - 1].request.planVersion,
                               rows[v.message.number - 1].action.ref, v.message)
  }

  ghost predicate Askable(v: Invocation) {
    !Blank(v.text) && |v.text.value| <= 20_000
  }

  /** The answer to a follow-up: each refusal exactly when its check is the first to fail. */
  ghost predicate FollowUpAnswers(rows: seq<Turn>, session: Session, v: Invocation, keyTaken: bool,
                                  result: Result<Turn, FollowUpError>) {
    var open, current := Followable(rows, session, v, keyTaken), Current(rows, session, v, keyTaken);
    var addressed := Addressed(rows, session, v, keyTaken);
    && (result == Err(MessageNotFound) <==> !Shown(rows, session, v))
    && (result == Err(RevisionConflict) <==> open && v.revision != 1)
    && (result == Err(ScopeViolation) <==> open && v.revision == 1 && v.conversation != session)
    && (result == Err(CapabilityNotFound) <==> open && v.revision == 1 && v.conversation == session && !addressed)
    && (result == Err(CapabilityStale) <==>
          (Shown(rows, session, v) && !open) || (addressed && v.actionType == "ASK_FOLLOW_UP" && !current))
    && (result == Err(InteractionInvalid) <==>
          (addressed && v.actionType != "ASK_FOLLOW_UP") || (current && !Askable(v)))
    && (result.Ok? || result.error.Refused? <==> current && Askable(v))
  }

  /** What a follow-up does, without saying how: refused by its own checks, or a learner's turn with the question. */
  ghost predicate FollowsUp(s: World, after: World, v: Invocation, session: Session, goal: string, plan: string,
                            planVersion: int, ready: bool, decision: Option<Decision>,
                            result: Result<Turn, FollowUpError>) {
    var rows, keyTaken := Rows(s.turns, session), KeyTaken(s.turns, session.user, v.key);
    && FollowUpAnswers(rows, session, v, keyTaken, result)
    && (!(Current(rows, session, v, keyTaken) && Askable(v)) ==> after == s)
    && (Current(rows, session, v, keyTaken) && Askable(v) ==>
          var r := Incoming(session, goal, plan, planVersion, "interaction-" + v.key, Learner,
                            Some(Strip(v.text.value)), v.key);
          Rounds(s, after, r, ready, decision,
                 match result case Ok(t) => Ok(t) case Err(e) => Err(if e.Refused? then e.cause else NotReady)))
  }

  lemma FollowUpFollowsUp(s: World, v: Invocation, session: Session, goal: string, plan: string, planVersion: int,
                          ready: bool, decision: Option<Decision>)
    requires Reachable(s)
    ensures var (after, result) := FollowUp(s, v, session, goal, plan, planVersion, ready, decision);
      FollowsUp(s, after, v, session, goal, plan, planVersion, ready, decision, result)
  {
    var (after, result) := FollowUp(s, v, session, goal, plan, planVersion, ready, decision);
    var rows, keyTaken := Rows(s.turns, session), KeyTaken(s.turns, session.user, v.key);
    ChecksInOrder(s, v, session, keyTaken);
    if FollowUpCheck(rows, keyTaken, IndexOf(rows, session, v.message), v).None? {
      AcceptRounds(s, FollowUpRequest(v, session, goal, plan, planVersion), ready, decision);
    }
    hide Rounds, Accept, FollowUpCheck, Strip, Rows, KeyTaken, Blank;
  }

  lemma ChecksInOrder(s: World, v: Invocation, session: Session, keyTaken: bool)
    requires Reachable(s)
    ensures var rows := Rows(s.turns, session);
      var error := FollowUpCheck(rows, keyTaken, IndexOf(rows, session, v.message), v);
      && error.None? == (Current(rows, session, v, keyTaken) && Askable(v))
      && (error.Some? ==> !error.value.Refused? && FollowUpAnswers(rows, session, v, keyTaken, Err(error.value)))
  {
    var rows := Rows(s.turns, session);
    if Shown(rows, session, v) { RowIsInPlace(s, session, v.message.number - 1); }
    if v.text.Some? { StripsToNothingIff(v.text.value); }
    hide Rows, Reachable;
    assert Blank(v.text) <==> v.text.None? || Strip(v.text.value) == "";
    hide Strip, AllSpace, Blank;
  }

  /** A follow-up adds a turn only to the message the learner was last shown: the new turn is numbered right after
      that message's turn and chained to its action.  Otherwise the transcript stays as it is. */
  lemma FollowUpAnswersTheNewestMessage(s: World, v: Invocation, session: Session, goal: string, plan: string,
      planVersion: int, ready: bool, decision: Option<Decision>)
    requires Reachable(s) && s.tasks == map[]
    requires v.text.Some? ==> OwnContext(FollowUpRequest(v, session, goal, plan, planVersion), decision)
    ensures var (t, result) := FollowUp(s, v, session, goal, plan, planVersion, ready, decision);
      var rows := Rows(s.turns, session);
      t != s ==>
        && rows != [] && v.message == MessageId(session, |rows|) && result.Ok?
        && Rows(t.turns, session) == rows + [result.value] && result.value.number == v.message.number + 1
        && result.value.previous == Some(v.expected.action)
  {
    var (t, result) := FollowUp(s, v, session, goal, plan, planVersion, ready, decision);
    if t != s {
      AcceptedTurnIsNext(s, FollowUpRequest(v, session, goal, plan, planVersion), ready, decision);
    }
  }

  /** Repeating an accepted follow-up is answered with its turn, however many turns have come since. */
  lemma FollowUpCanBeRepeated(s: World, v: Invocation, session: Session, goal: string, plan: string, planVersion: int,
                              ready: bool, decision: Option<Decision>, steps: seq<Step>, later: Option<Decision>)
    requires Reachable(s) && s.tasks == map[]
    requires v.text.Some? ==> OwnContext(FollowUpRequest(v, session, goal, plan, planVersion), decision)
    requires var (t, result) := FollowUp(s, v, session, goal, plan, planVersion, ready, decision);
      t != s && Allowed(t, steps)
    ensures var (t, result) := FollowUp(s, v, session, goal, plan, planVersion, ready, decision);
      FollowUp(After(t, steps), v, session, goal, plan, planVersion, ready, later) == (After(t, steps), result)
  {
    var (t, result) := FollowUp(s, v, session, goal, plan, planVersion, ready, decision);
    var r := FollowUpRequest(v, session, goal, plan, planVersion);
    AcceptIsARun(s, r, ready, decision);
    FollowUpAnswersTheNewestMessage(s, v, session, goal, plan, planVersion, ready, decision);
    FoundWhenAccepted(s, r, ready, decision);
    AcceptedForGood(t, steps, session.user, v.key);
    StripIsIdempotent(v.text.value);
    RowsOnlyGrow(s.turns, t.turns, session);
    TurnsOnlyGrow(t, steps);
    RowsOnlyGrow(t.turns, After(t, steps).turns, session);
    AnsweredAgain(s, After(t, steps), v, session, goal, plan, planVersion, ready, later, result.value);
  }

  lemma AnsweredAgain(s: World, u: World, v: Invocation, session: Session, goal: string, plan: string, planVersion: int,
                      ready: bool, later: Option<Decision>, turn: Turn)
    requires Rows(s.turns, session) <= Rows(u.turns, session)
      && IndexOf(Rows(s.turns, session), session, v.message).Some?
    requires FollowUpCheck(Rows(s.turns, session), KeyTaken(s.turns, session.user, v.key),
      IndexOf(Rows(s.turns, session), session, v.message), v) == None
    requires Find(u.turns, session.user, v.key) == Some(turn)
    requires turn.request == Compared(FollowUpRequest(v, session, goal, plan, planVersion))
    ensures FollowUp(u, v, session, goal, plan, planVersion, ready, later) == (u, Ok(turn))
  {}

  lemma FoundWhenAccepted(s: World, r: Incoming, ready: bool, decision: Option<Decision>)
    requires Accept(s, r, ready, decision).0 != s
    ensures var (t, result) := Accept(s, r, ready, decision);
      && s.turns <= t.turns && result.Ok? && result.value.request == Stored(r)
      && Find(t.turns, r.session.user, r.key) == Some(result.value)
  {
    var (t, result) := Accept(s, r, ready, decision);
    assert t.turns[..|t.turns| - 1] == s.turns;
  }

  lemma RowsOnlyGrow(turns: seq<Turn>, longer: seq<Turn>, session: Session)
    requires turns <= longer
    ensures Rows(turns, session) <= Rows(longer, session)
  {
    assert longer == turns + longer[|turns|..];
    RowsOfMore(turns, longer[|turns|..], session);
  }

  lemma {:induction false} RowsOfMore(turns: seq<Turn>, more: seq<Turn>, session: Session)
    ensures Rows(turns, session) <= Rows(turns + more, session)
  {
    if more == [] {
      assert turns + more == turns;
    } else {
      RowsOfMore(turns, more[..|more| - 1], session);
      RowsAfter(turns + more[..|more| - 1], more[|more| - 1], session);
      assert turns + more == (turns + more[..|more| - 1]) + [more[|more| - 1]];
    }
  }
}
