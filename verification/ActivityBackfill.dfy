/** The migration that gives every activity a first lifecycle state, and the reconciliation that checks it. */
module ActivityBackfills {
  import opened Prelude

  type Time = int

  datatype GoalRow = GoalRow(goal: string, version: int, user: string)

  datatype PlanKey = PlanKey(plan: string, version: int)

  datatype PlanRow = PlanRow(key: PlanKey, goal: string)

  /** `user` is the text of the context's user id; `planRef` the payload's plan reference, if any. */
  datatype Event = Event(
    kind: string, aggregate: string, user: string, planRef: Option<PlanKey>, correlation: string,
      recordedAt: Option<Time>)

  datatype TranscriptRow = TranscriptRow(activity: string, user: string, createdAt: Option<Time>)

  datatype Activity = Activity(id: string, key: PlanKey, initial: string, createdAt: Option<Time>)

  /** Identifiers of backfilled states without an event: uuid5 of the activity id, taken to be injective. */
  datatype Correlation = OfEvent(id: string) | OfTranscript(activity: string) | OfActivity(activity: string)

  datatype State = State(
    activity: string, version: nat, key: PlanKey, status: string, reason: string,
    startedAt: Option<Time>, completedAt: Option<Time>, correlation: Correlation, createdAt: Time)

  /** The tables the migration reads, in scan order. */
  datatype Database = Database(
    goals: seq<GoalRow>, plans: seq<PlanRow>, events: seq<Event>, transcripts: seq<TranscriptRow>,
      activities: seq<Activity>)

  const STATUSES: set<string> := {"planned", "available", "active", "completed", "skipped", "superseded"}

  function Utc(t: Option<Time>, now: Time): Time {
    if t.Some? then t.value else now
  }

  // ---------------------------------------------------------------- owners

  /** The row that decides a goal's owner after n rows: a version below zero never counts, an equal one overrides. */
  function OwningRow(rows: seq<GoalRow>, n: nat, goal: string): Option<GoalRow>
    requires n <= |rows|
  {
    if n == 0 then None
    else
      var before, row := OwningRow(rows, n - 1, goal), rows[n - 1];
      if row.goal == goal && row.version >= (if before.Some? then before.value.version else 0) then Some(row)
        else before
  }

  function OwnerOf(db: Database, goal: string): Option<string> {
    var row := OwningRow(db.goals, |db.goals|, goal);
    if row.Some? then Some(row.value.user) else None
  }

  /** It is a row of the goal's greatest version, and there is one unless every version is negative. */
  lemma {:induction false} OwningRowIsGreatest(rows: seq<GoalRow>, n: nat, goal: string)
    requires n <= |rows|
    ensures OwningRow(rows, n, goal).None? <==> forall i :: 0 <= i < n && rows[i].goal == goal ==> rows[i].version < 0
    ensures OwningRow(rows, n, goal).Some? ==>
      var row := OwningRow(rows, n, goal).value;
      && row in rows[..n] && row.goal == goal
      && forall i :: 0 <= i < n && rows[i].goal == goal ==> rows[i].version <= row.version
  {
    if n > 0 {
      OwningRowIsGreatest(rows, n - 1, goal);
      assert rows[..n] == rows[..n - 1] + [rows[n - 1]];
    }
  }

  /** A goal's version occurs once. */
  ghost predicate VersionsUnique(rows: seq<GoalRow>) {
    forall row, other :: row in rows && other in rows && row.goal == other.goal && row.version == other.version
      ==> row == other
  }

  /** The owner does not depend on the order in which the rows are scanned. */
  lemma OwnerIsOrderIndependent(rows: seq<GoalRow>, reordered: seq<GoalRow>, goal: string)
    requires VersionsUnique(rows) && forall row :: row in rows <==> row in reordered
    ensures OwningRow(rows, |rows|, goal) == OwningRow(reordered, |reordered|, goal)
  {
    OwningRowIsGreatest(rows, |rows|, goal);
    OwningRowIsGreatest(reordered, |reordered|, goal);
    assert rows[..|rows|] == rows && reordered[..|reordered|] == reordered;
    OneDecides(rows, reordered, goal);
    OneDecides(reordered, rows, goal);
  }

  lemma OneDecides(rows: seq<GoalRow>, others: seq<GoalRow>, goal: string)
    requires forall row :: row in rows <==> row in others
    ensures OwningRow(rows, |rows|, goal).Some? ==>
      OwningRow(others, |others|, goal).Some?
      && OwningRow(rows, |rows|, goal).value.version <= OwningRow(others, |others|, goal).value.version
  {
    OwningRowIsGreatest(rows, |rows|, goal);
    OwningRowIsGreatest(others, |others|, goal);
    assert rows[..|rows|] == rows;
    if OwningRow(rows, |rows|, goal).Some? {
      var row := OwningRow(rows, |rows|, goal).value;
      var i :| 0 <= i < |others| && others[i] == row;
    }
  }

  /** The two dictionaries filled in one scan. */
  method DeriveOwners(rows: seq<GoalRow>) returns (owner: map<string, string>)
    ensures forall goal :: goal in owner <==> OwningRow(rows, |rows|, goal).Some?
    ensures forall goal :: goal in owner ==> owner[goal] == OwningRow(rows, |rows|, goal).value.user
  {
    owner := map[];
    var versions: map<string, int> := map[];
    for n := 0 to |rows|
      invariant forall goal :: goal in owner <==> OwningRow(rows, n, goal).Some?
      invariant forall goal :: goal in versions <==> OwningRow(rows, n, goal).Some?
      invariant forall goal :: goal in owner ==> owner[goal] == OwningRow(rows, n, goal).value.user
      invariant forall goal :: goal in versions ==> versions[goal] == OwningRow(rows, n, goal).value.version
    {
      var row := rows[n];
      if row.version >= if row.goal in versions then versions[row.goal] else 0 {
        versions := versions[row.goal := row.version];
        owner := owner[row.goal := row.user];
      }
    }
  }

  // ---------------------------------------------------------------- one activity's first state

  /** plan_goal.get: the last plan row with the key. */
  function GoalOf(plans: seq<PlanRow>, key: PlanKey): Option<string> {
    if plans == [] then None
    else if plans[|plans| - 1].key == key then Some(plans[|plans| - 1].goal)
    else GoalOf(plans[..|plans| - 1], key)
  }

  function OwnerOfActivity(db: Database, a: Activity): Option<string> {
    var goal := GoalOf(db.plans, a.key);
    OwnerOf(db, if goal.Some? then goal.value else "")
  }

  /** The event is of this kind, about this activity, by its owner, under its current plan version. */
  predicate Matches(e: Event, kind: string, a: Activity, owner: Option<string>) {
    e.kind == kind && e.aggregate == a.id && owner.Some? && owner.value != "" && e.user == owner.value
      && e.planRef == Some(a.key)
  }

  function FirstEvent(events: seq<Event>, kind: string, a: Activity, owner: Option<string>): (found: Option<Event>)
    ensures found.Some? ==> found.value in events && Matches(found.value, kind, a, owner)
    ensures found.None? ==> forall e :: e in events ==> !Matches(e, kind, a, owner)
  {
    if events == [] then None
    else if Matches(events[0], kind, a, owner) then Some(events[0])
    else FirstEvent(events[1..], kind, a, owner)
  }

  predicate IsOwnTurn(t: TranscriptRow, a: Activity, owner: Option<string>) {
    t.activity == a.id && owner == Some(t.user)
  }

  function LastTurn(turns: seq<TranscriptRow>, a: Activity, owner: Option<string>): (found: Option<TranscriptRow>)
    ensures found.Some? ==> found.value in turns && IsOwnTurn(found.value, a, owner)
    ensures found.None? ==> forall t :: t in turns ==> !IsOwnTurn(t, a, owner)
  {
    if turns == [] then None
    else
      var last := turns[|turns| - 1];
      if IsOwnTurn(last, a, owner) then Some(last)
      else
        var before := LastTurn(turns[..|turns| - 1], a, owner);
        assert turns == turns[..|turns| - 1] + [last];
        before
  }

  function FirstState(db: Database, a: Activity, now: Time): State {
    var owner := OwnerOfActivity(db, a);
    var completed := FirstEvent(db.events, "ActivityCompleted", a, owner);
    var turn := LastTurn(db.transcripts, a, owner);
    var selected := FirstEvent(db.events, "ActivitySelected", a, owner);
    if completed.Some? then
      var at := Utc(completed.value.recordedAt, now);
      State(a.id, 1, a.key, "completed", "BACKFILL_OWNER_VALID_COMPLETION_EVENT", None, Some(at),
        OfEvent(completed.value.correlation), at)
    else if turn.Some? then
      var at := Utc(turn.value.createdAt, now);
      State(a.id, 1, a.key, "active", "BACKFILL_ACCEPTED_CURRENT_USER_TRANSCRIPT", Some(at), None,
        OfTranscript(a.id), at)
    else if selected.Some? then
      var at := Utc(selected.value.recordedAt, now);
      State(a.id, 1, a.key, "available", "BACKFILL_OWNER_VALID_ACTIVITY_SELECTED", None, None,
        OfEvent(selected.value.correlation), at)
    else
      var at := Utc(a.createdAt, now);
      var status := if a.initial in STATUSES && a.initial != "completed" then a.initial else "planned";
      State(a.id, 1, a.key, status, "BACKFILL_IMMUTABLE_INITIAL_STATUS", if status == "active" then Some(at) else None,
        None, OfActivity(a.id), at)
  }

  /** What each derived status rests on: completion only on a matching completion event, whatever the activity's own
      payload claims; the strongest evidence decides. */
  lemma StatusRestsOnEvidence(db: Database, a: Activity, now: Time)
    ensures var st, owner := FirstState(db, a, now), OwnerOfActivity(db, a);
      var completed := exists e :: e in db.events && Matches(e, "ActivityCompleted", a, owner);
      var taught := exists t :: t in db.transcripts && IsOwnTurn(t, a, owner);
      var selected := exists e :: e in db.events && Matches(e, "ActivitySelected", a, owner);
      && (st.status == "completed" <==> completed)
      && (completed <==> st.completedAt.Some?)
      && (!completed && taught ==> st.status == "active")
      && (!completed && !taught && selected ==> st.status == "available")
      && (!completed && !taught && !selected ==>
            st.status == (if a.initial in STATUSES && a.initial != "completed" then a.initial else "planned"))
      && (st.startedAt.Some? <==> st.status == "active")
      && st.status in STATUSES && st.activity == a.id && st.key == a.key
  {}

  // ---------------------------------------------------------------- what the state tells

  /** The last plan row with the activity's plan version names the goal. */
  lemma {:induction false} GoalOfIsTheLast(plans: seq<PlanRow>, key: PlanKey)
    ensures GoalOf(plans, key).None? <==> forall i :: 0 <= i < |plans| ==> plans[i].key != key
    ensures GoalOf(plans, key).Some? ==>
      exists i :: 0 <= i < |plans| && plans[i].key == key && plans[i].goal == GoalOf(plans, key).value
                  && forall j :: i < j < |plans| ==> plans[j].key != key
  {
    if plans != [] {
      var init, last := plans[..|plans| - 1], plans[|plans| - 1];
      GoalOfIsTheLast(init, key);
      assert forall i :: 0 <= i < |init| ==> init[i] == plans[i];
      if last.key == key {
        assert plans[|plans| - 1].key == key;
      } else if GoalOf(init, key).Some? {
        var i :| 0 <= i < |init| && init[i].key == key && init[i].goal == GoalOf(init, key).value
                 && forall j :: i < j < |init| ==> init[j].key != key;
        assert plans[i].key == key;
      }
    }
  }

  /** An event of the kind, on the activity, by the named owner, for the activity's plan version. */
  ghost predicate Proves(e: Event, kind: string, a: Activity, owner: Option<string>) {
    && e.kind == kind && e.aggregate == a.id && e.planRef == Some(a.key)
    && e.user != "" && owner == Some(e.user)
  }

  /** The first such event of the scan. */
  ghost predicate FirstProof(events: seq<Event>, i: nat, kind: string, a: Activity, owner: Option<string>) {
    i < |events| && Proves(events[i], kind, a, owner) && forall j :: 0 <= j < i ==> !Proves(events[j], kind, a, owner)
  }

  ghost predicate NoProof(events: seq<Event>, kind: string, a: Activity, owner: Option<string>) {
    forall e :: e in events ==> !Proves(e, kind, a, owner)
  }

  ghost predicate Taught(t: TranscriptRow, a: Activity, owner: Option<string>) {
    t.activity == a.id && owner == Some(t.user)
  }

  /** The last turn of the owner on the activity. */
  ghost predicate LastTaught(turns: seq<TranscriptRow>, i: nat, a: Activity, owner: Option<string>) {
    i < |turns| && Taught(turns[i], a, owner) && forall j :: i < j < |turns| ==> !Taught(turns[j], a, owner)
  }

  ghost predicate NeverTaught(turns: seq<TranscriptRow>, a: Activity, owner: Option<string>) {
    forall t :: t in turns ==> !Taught(t, a, owner)
  }

  ghost predicate At(time: Option<Time>, now: Time, t: Time) {
    if time.Some? then t == time.value else t == now
  }

  ghost predicate Completes(db: Database, a: Activity, owner: Option<string>, now: Time, st: State) {
    && st.status == "completed" && st.reason == "BACKFILL_OWNER_VALID_COMPLETION_EVENT"
    && st.startedAt == None && st.completedAt == Some(st.createdAt)
    && exists i: nat :: FirstProof(db.events, i, "ActivityCompleted", a, owner)
         && st.correlation == OfEvent(db.events[i].correlation) && At(db.events[i].recordedAt, now, st.createdAt)
  }

  ghost predicate Activates(db: Database, a: Activity, owner: Option<string>, now: Time, st: State) {
    && st.status == "active" && st.reason == "BACKFILL_ACCEPTED_CURRENT_USER_TRANSCRIPT"
    && st.startedAt == Some(st.createdAt) && st.completedAt == None && st.correlation == OfTranscript(a.id)
    && exists i: nat :: LastTaught(db.transcripts, i, a, owner) && At(db.transcripts[i].createdAt, now, st.createdAt)
  }

  ghost predicate Offers(db: Database, a: Activity, owner: Option<string>, now: Time, st: State) {
    && st.status == "available" && st.reason == "BACKFILL_OWNER_VALID_ACTIVITY_SELECTED"
    && st.startedAt == None && st.completedAt == None
    && exists i: nat :: FirstProof(db.events, i, "ActivitySelected", a, owner)
         && st.correlation == OfEvent(db.events[i].correlation) && At(db.events[i].recordedAt, now, st.createdAt)
  }

  ghost predicate KeepsInitial(a: Activity, now: Time, st: State) {
    && st.status == (if a.initial in {"planned", "available", "active", "skipped", "superseded"} then a.initial
                     else "planned")
    && st.reason == "BACKFILL_IMMUTABLE_INITIAL_STATUS" && st.correlation == OfActivity(a.id)
    && At(a.createdAt, now, st.createdAt) && st.completedAt == None
    && st.startedAt == (if a.initial == "active" then Some(st.createdAt) else None)
  }

  /** The state tells the strongest evidence there is, and which event or turn it rests on. */
  ghost predicate StateTells(db: Database, a: Activity, now: Time, st: State) {
    var owner := OwnerOfActivity(db, a);
    && st.activity == a.id && st.version == 1 && st.key == a.key
    && (if !NoProof(db.events, "ActivityCompleted", a, owner) then Completes(db, a, owner, now, st)
        else if !NeverTaught(db.transcripts, a, owner) then Activates(db, a, owner, now, st)
        else if !NoProof(db.events, "ActivitySelected", a, owner) then Offers(db, a, owner, now, st)
        else KeepsInitial(a, now, st))
  }

  lemma {:induction false} FirstEventIsAt(events: seq<Event>, kind: string, a: Activity, owner: Option<string>)
    returns (i: nat)
    ensures FirstEvent(events, kind, a, owner).None? <==> NoProof(events, kind, a, owner)
    ensures FirstEvent(events, kind, a, owner).Some? ==>
      FirstProof(events, i, kind, a, owner) && events[i] == FirstEvent(events, kind, a, owner).value
  {
    i := 0;
    if events != [] && !Matches(events[0], kind, a, owner) {
      i := FirstEventIsAt(events[1..], kind, a, owner);
      assert events == [events[0]] + events[1..];
      assert forall j :: 0 < j < |events| ==> events[j] == events[1..][j - 1];
      i := i + 1;
    }
  }

  lemma {:induction false} LastTurnIsAt(turns: seq<TranscriptRow>, a: Activity, owner: Option<string>) returns (i: nat)
    ensures LastTurn(turns, a, owner).None? <==> NeverTaught(turns, a, owner)
    ensures LastTurn(turns, a, owner).Some? ==>
      LastTaught(turns, i, a, owner) && turns[i] == LastTurn(turns, a, owner).value
  {
    i := 0;
    if turns != [] {
      var init, last := turns[..|turns| - 1], turns[|turns| - 1];
      assert turns == init + [last];
      i := |turns| - 1;
      if !IsOwnTurn(last, a, owner) {
        i := LastTurnIsAt(init, a, owner);
        assert forall j :: 0 <= j < |init| ==> turns[j] == init[j];
      }
    }
  }

  lemma FirstStateTells(db: Database, a: Activity, now: Time)
    ensures StateTells(db, a, now, FirstState(db, a, now))
  {
    var owner := OwnerOfActivity(db, a);
    var i := FirstEventIsAt(db.events, "ActivityCompleted", a, owner);
    var j := LastTurnIsAt(db.transcripts, a, owner);
    var k := FirstEventIsAt(db.events, "ActivitySelected", a, owner);
    hide FirstEvent, LastTurn, NoProof, NeverTaught, FirstProof, LastTaught, OwnerOfActivity;
  }

  // ---------------------------------------------------------------- backfill and reconciliation

  ghost predicate HasState(states: seq<State>, id: string) {
    exists i :: 0 <= i < |states| && states[i].activity == id
  }

  ghost predicate HasActivity(activities: seq<Activity>, id: string) {
    exists i :: 0 <= i < |activities| && activities[i].id == id
  }

  /** Primary key of learning_activities. */
  ghost predicate IdsUnique(activities: seq<Activity>) {
    forall i, j :: 0 <= i < j < |activities| ==> activities[i].id != activities[j].id
  }

  /** The states of the first n activities that had none. */
  function Missing(db: Database, existing: set<string>, n: nat, now: Time): seq<State>
    requires n <= |db.activities|
  {
    if n == 0 then []
    else
      var before, a := Missing(db, existing, n - 1, now), db.activities[n - 1];
      if a.id in existing then before else before + [FirstState(db, a, now)]
  }

  function Known(states: seq<State>): set<string> {
    set i | 0 <= i < |states| :: states[i].activity
  }

  /** The added states are those of the activities at these positions, in order: the ones that had none. */
  ghost predicate AddedFor(db: Database, states: seq<State>, added: seq<State>, at: seq<nat>, now: Time) {
    && |at| == |added|
    && (forall i :: 0 <= i < |at| ==> at[i] < |db.activities| && StateTells(db, db.activities[at[i]], now, added[i]))
    && (forall i, j :: 0 <= i < j < |at| ==> at[i] < at[j])
    && forall k :: 0 <= k < |db.activities| ==> (k in at <==> !HasState(states, db.activities[k].id))
  }

  /** As far as the scan has come. */
  ghost predicate AddedSoFar(db: Database, existing: set<string>, added: seq<State>, at: seq<nat>, n: nat, now: Time)
    requires n <= |db.activities|
  {
    && |at| == |added|
    && (forall i :: 0 <= i < |at| ==> at[i] < n && StateTells(db, db.activities[at[i]], now, added[i]))
    && (forall i, j :: 0 <= i < j < |at| ==> at[i] < at[j])
    && forall k :: 0 <= k < n ==> (k in at <==> db.activities[k].id !in existing)
  }

  lemma {:induction false} MissingAreAdded(db: Database, existing: set<string>, n: nat, now: Time)
    returns (at: seq<nat>)
    requires n <= |db.activities|
    ensures AddedSoFar(db, existing, Missing(db, existing, n, now), at, n, now)
  {
    hide StateTells, FirstState, AddedSoFar;
    at := [];
    if n == 0 {
      NoneAdded(db, existing, now);
    } else {
      at := MissingAreAdded(db, existing, n - 1, now);
      FirstStateTells(db, db.activities[n - 1], now);
      OneMoreAdded(db, existing, Missing(db, existing, n - 1, now), at, n, now,
        FirstState(db, db.activities[n - 1], now));
      if db.activities[n - 1].id !in existing { at := at + [n - 1]; }
    }
  }

  lemma NoneAdded(db: Database, existing: set<string>, now: Time)
    ensures AddedSoFar(db, existing, [], [], 0, now)
  {}

  lemma OneMoreAdded(db: Database, existing: set<string>, added: seq<State>, at: seq<nat>, n: nat, now: Time, st: State)
    requires 0 < n <= |db.activities| && AddedSoFar(db, existing, added, at, n - 1, now)
    requires StateTells(db, db.activities[n - 1], now, st)
    ensures if db.activities[n - 1].id in existing then AddedSoFar(db, existing, added, at, n, now)
            else AddedSoFar(db, existing, added + [st], at + [n - 1], n, now)
  {
    hide StateTells;
    assert forall i :: 0 <= i < |at| ==> at[i] in at && at[i] < n - 1;
    assert forall k :: k in at + [n - 1] <==> k in at || k == n - 1;
  }

  lemma BackfillAdds(db: Database, states: seq<State>, now: Time)
    ensures exists at: seq<nat> :: AddedFor(db, states, Missing(db, Known(states), |db.activities|, now), at, now)
  {
    var at := MissingAreAdded(db, Known(states), |db.activities|, now);
    forall k | 0 <= k < |db.activities|
      ensures db.activities[k].id in Known(states) <==> HasState(states, db.activities[k].id)
    {
      KnownIffStated(states, db.activities[k].id);
    }
    hide StateTells, HasState, Missing, Known;
    assert AddedFor(db, states, Missing(db, Known(states), |db.activities|, now), at, now);
  }

  method Backfill(db: Database, states: seq<State>, now: Time) returns (after: seq<State>)
    ensures after == states + Missing(db, Known(states), |db.activities|, now)
    ensures states <= after && exists at: seq<nat> :: AddedFor(db, states, after[|states|..], at, now)
  {
    BackfillAdds(db, states, now);
    hide FirstState, Known, AddedFor, AddedSoFar;
    var owner := DeriveOwners(db.goals);
    var existing := Known(states);
    after := states;
    for n := 0 to |db.activities|
      invariant after == states + Missing(db, existing, n, now)
    {
      var a := db.activities[n];
      if a.id !in existing {
        var state := DeriveState(db, owner, a, now);
        after := after + [state];
      }
    }
    assert after[|states|..] == Missing(db, existing, |db.activities|, now);
  }

  /** Looks for the evidence in turn and takes the strongest. */
  method DeriveState(db: Database, owner: map<string, string>, a: Activity, now: Time) returns (state: State)
    requires forall goal :: goal in owner <==> OwnerOf(db, goal).Some?
    requires forall goal :: goal in owner ==> OwnerOf(db, goal) == Some(owner[goal])
    ensures state == FirstState(db, a, now)
  {
    var goal := GoalOf(db.plans, a.key);
    var key := if goal.Some? then goal.value else "";
    var ownerId := if key in owner then Some(owner[key]) else None;
    assert ownerId == OwnerOfActivity(db, a);
    var completed := FirstEvent(db.events, "ActivityCompleted", a, ownerId);
    var turn := LastTurn(db.transcripts, a, ownerId);
    var selected := FirstEvent(db.events, "ActivitySelected", a, ownerId);
    var status, reason, correlation, at;
    if completed.Some? {
      status, reason := "completed", "BACKFILL_OWNER_VALID_COMPLETION_EVENT";
      correlation, at := OfEvent(completed.value.correlation), Utc(completed.value.recordedAt, now);
    } else if turn.Some? {
      status, reason := "active", "BACKFILL_ACCEPTED_CURRENT_USER_TRANSCRIPT";
      correlation, at := OfTranscript(a.id), Utc(turn.value.createdAt, now);
    } else if selected.Some? {
      status, reason := "available", "BACKFILL_OWNER_VALID_ACTIVITY_SELECTED";
      correlation, at := OfEvent(selected.value.correlation), Utc(selected.value.recordedAt, now);
    } else {
      status := if a.initial in STATUSES && a.initial != "completed" then a.initial else "planned";
      reason, correlation, at := "BACKFILL_IMMUTABLE_INITIAL_STATUS", OfActivity(a.id), Utc(a.createdAt, now);
    }
    state := State(a.id, 1, a.key, status, reason, if status == "active" then Some(at) else None,
                   if status == "completed" then Some(at) else None, correlation, at);
  }

  /** The activity each state claims, and its plan version, are as in the activity table. */
  predicate Agrees(activities: seq<Activity>, st: State) {
    exists i :: 0 <= i < |activities| && activities[i].id == st.activity && activities[i].key == st.key
  }

  predicate Covered(activities: seq<Activity>, states: seq<State>) {
    forall i :: 0 <= i < |activities| ==> activities[i].id in Known(states)
  }

  datatype ReconcileError = Disagreement(activity: string) | MissingStates(activities: set<string>)

  ghost predicate FirstToDisagree(activities: seq<Activity>, states: seq<State>, j: nat)
    requires j < |states|
  {
    !Agrees(activities, states[j]) && forall i :: 0 <= i < j ==> Agrees(activities, states[i])
  }

  /** Raises exactly when some state disagrees with the activities or some activity has no state. */
  method Reconcile(activities: seq<Activity>, states: seq<State>) returns (r: Option<ReconcileError>)
    requires IdsUnique(activities)
    ensures r.None? <==>
              (forall j :: 0 <= j < |states| ==> Agrees(activities, states[j])) && Covered(activities, states)
    ensures r.Some? && r.value.Disagreement? ==>
      exists j :: 0 <= j < |states| && states[j].activity == r.value.activity && FirstToDisagree(activities, states, j)
    ensures r.Some? && r.value.MissingStates? ==>
      forall id :: id in r.value.activities <==> HasActivity(activities, id) && !HasState(states, id)
    ensures r.Some? && r.value.MissingStates? ==> forall j :: 0 <= j < |states| ==> Agrees(activities, states[j])
  {
    var refs: map<string, PlanKey> := map[];
    for n := 0 to |activities|
      invariant forall id :: id in refs <==> exists i :: 0 <= i < n && activities[i].id == id
      invariant forall i :: 0 <= i < n ==> refs[activities[i].id] == activities[i].key
    {
      refs := refs[activities[n].id := activities[n].key];
    }
    var seen: set<string> := {};
    for n := 0 to |states|
      invariant forall j :: 0 <= j < n ==> Agrees(activities, states[j])
      invariant seen == set j | 0 <= j < n :: states[j].activity
    {
      if states[n].activity !in refs || refs[states[n].activity] != states[n].key {
        Disagrees(activities, refs, states[n]);
        assert FirstToDisagree(activities, states, n);
        return Some(Disagreement(states[n].activity));
      }
      ghost var i :| 0 <= i < |activities| && activities[i].id == states[n].activity;
      seen := seen + {states[n].activity};
    }
    assert seen == Known(states);
    var missing := refs.Keys - seen;
    MissingHaveNoState(activities, states, refs, missing);
    if missing != {} {
      return Some(MissingStates(missing));
    }
    return None;
  }

  lemma MissingHaveNoState(activities: seq<Activity>, states: seq<State>, refs: map<string, PlanKey>,
                           missing: set<string>)
    requires forall id :: id in refs <==> exists i :: 0 <= i < |activities| && activities[i].id == id
    requires missing == refs.Keys - Known(states)
    ensures forall id :: id in missing <==> HasActivity(activities, id) && !HasState(states, id)
    ensures missing == {} <==> Covered(activities, states)
  {
    forall id
      ensures id in Known(states) <==> HasState(states, id)
    {
      KnownIffStated(states, id);
    }
    forall i | 0 <= i < |activities|
      ensures activities[i].id in refs
    {
    }
    if id :| id in missing {
      var i :| 0 <= i < |activities| && activities[i].id == id;
      assert activities[i].id !in Known(states);
      assert !Covered(activities, states);
    }
  }

  lemma KnownIffStated(states: seq<State>, id: string)
    ensures id in Known(states) <==> HasState(states, id)
  {
    if HasState(states, id) {
      var j :| 0 <= j < |states| && states[j].activity == id;
      assert states[j].activity in Known(states);
    }
  }

  lemma Disagrees(activities: seq<Activity>, refs: map<string, PlanKey>, st: State)
    requires forall i :: 0 <= i < |activities| ==>
      activities[i].id in refs && refs[activities[i].id] == activities[i].key
    requires st.activity !in refs || refs[st.activity] != st.key
    ensures !Agrees(activities, st)
  {}

  lemma {:induction false} MissingCovers(db: Database, existing: set<string>, n: nat, now: Time)
    requires n <= |db.activities|
    ensures forall i :: 0 <= i < n && db.activities[i].id !in existing ==>
      HasState(Missing(db, existing, n, now), db.activities[i].id)
    ensures forall st :: st in Missing(db, existing, n, now) ==>
      Agrees(db.activities, st) && st.version == 1 && st.activity !in existing
  {
    if n > 0 {
      MissingCovers(db, existing, n - 1, now);
      var before, all, a := Missing(db, existing, n - 1, now), Missing(db, existing, n, now), db.activities[n - 1];
      forall i | 0 <= i < n && db.activities[i].id !in existing
        ensures HasState(all, db.activities[i].id)
      {
        if i < n - 1 {
          assert HasState(before, db.activities[i].id);
          var j :| 0 <= j < |before| && before[j].activity == db.activities[i].id;
          assert all[j].activity == db.activities[i].id;
        } else {
          assert all[|all| - 1].activity == a.id;
        }
      }
    }
  }

  lemma KnownInEither(states: seq<State>, added: seq<State>, id: string)
    ensures id in Known(states + added) <==> id in Known(states) || id in Known(added)
  {
    var after := states + added;
    assert forall j :: 0 <= j < |states| ==> after[j] == states[j];
    assert forall j :: 0 <= j < |added| ==> after[|states| + j] == added[j];
    if id in Known(states) {
      var j :| 0 <= j < |states| && states[j].activity == id;
      assert after[j].activity == id;
    } else if id in Known(added) {
      var j :| 0 <= j < |added| && added[j].activity == id;
      assert after[|states| + j].activity == id;
    }
  }

  /** After the backfill the reconciliation can only fail for a state that was there before and already disagreed. */
  lemma BackfillEstablishesTheReconciliation(db: Database, states: seq<State>, now: Time)
    requires IdsUnique(db.activities)
    ensures var after := states + Missing(db, Known(states), |db.activities|, now);
      && Covered(db.activities, after)
      && ((forall j :: 0 <= j < |after| ==> Agrees(db.activities, after[j])) <==>
            forall j :: 0 <= j < |states| ==> Agrees(db.activities, states[j]))
  {
    var added := Missing(db, Known(states), |db.activities|, now);
    var after := states + added;
    MissingCovers(db, Known(states), |db.activities|, now);
    forall i | 0 <= i < |db.activities|
      ensures db.activities[i].id in Known(after)
    {
      var id := db.activities[i].id;
      KnownIffStated(states, id);
      KnownIffStated(added, id);
      KnownInEither(states, added, id);
    }
    assert forall j :: 0 <= j < |states| ==> after[j] == states[j];
    assert forall j :: 0 <= j < |added| ==> added[j] in added && after[|states| + j] == added[j];
  }

  /** A second run finds nothing to insert, at whatever time it runs. */
  lemma SecondRunInsertsNothing(db: Database, states: seq<State>, now: Time, later: Time)
    requires IdsUnique(db.activities)
    ensures var after := states + Missing(db, Known(states), |db.activities|, now);
      Missing(db, Known(after), |db.activities|, later) == []
  {
    var after := states + Missing(db, Known(states), |db.activities|, now);
    BackfillEstablishesTheReconciliation(db, states, now);
    NothingMissing(db, Known(after), |db.activities|, later);
  }

  lemma {:induction false} NothingMissing(db: Database, existing: set<string>, n: nat, now: Time)
    requires n <= |db.activities| && forall i :: 0 <= i < n ==> db.activities[i].id in existing
    ensures Missing(db, existing, n, now) == []
  {
    if n > 0 { NothingMissing(db, existing, n - 1, now); }
  }
}
