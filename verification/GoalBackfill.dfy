/** The migration that turns legacy goal rows into definition versions: rows that mean the same share a version. */
module GoalBackfills {
  import opened Prelude

  /** JSON values as goal payloads hold them. */
  datatype Json = Null | Flag(flag: bool) | Number(token: string) | Text(text: string) | List(items: seq<Json>)

  type Payload = map<string, Json>

  datatype LegacyRow = LegacyRow(goal: string, version: int, user: string, payload: Payload)

  const SEMANTIC_FIELDS: seq<string> := [
    "title", "topic", "target_capabilities", "application_context", "success_criteria", "source_document_ids",
    "deadline_at", "weekly_time_budget_minutes"]

  /** SHA-256 over the canonical JSON of the semantic fields, taken to be injective. */
  datatype Fingerprint = Fingerprint(fields: seq<Json>)

  /** MD5 of "goal:version:index" or "goal:draft:index", taken to be injective. */
  datatype CriterionId = OfDefinition(goal: string, version: nat, index: nat) | OfDraft(goal: string, index: nat)

  datatype Criterion = Criterion(id: CriterionId, statement: Json)

  datatype Definition = Definition(
    goal: string, version: nat, user: string, fingerprint: Fingerprint, criteria: seq<Criterion>,
      supersedes: Option<nat>)

  /** The one draft or state row a goal gets. */
  datatype Current =
    | Draft(
        goal: string, user: string, base: nat, title: Json, topic: Json, targetCapabilities: Json,
        applicationContext: Json, deadlineAt: Json, weeklyTimeBudgetMinutes: Json, criteria: seq<Criterion>,
        sourceDocumentIds: Json, createdAt: Json)
    | State(goal: string, user: string, definition: nat, status: Json, createdAt: Json)

  datatype History = History(definitions: seq<Definition>, current: Current)

  datatype BackfillError =
    | NotIterable(goal: string) | MissingField(goal: string, field: string) | NullStatus(goal: string)

  /** dict.get: an absent field and an explicit null are the same. */
  function Get(p: Payload, field: string): Json {
    if field in p then p[field] else Null
  }

  function FingerprintOf(p: Payload): Fingerprint {
    Fingerprint(seq(|SEMANTIC_FIELDS|, i requires 0 <= i < |SEMANTIC_FIELDS| => Get(p, SEMANTIC_FIELDS[i])))
  }

  /** The field is the same in both, or absent or null in both. */
  ghost predicate SameField(p: Payload, q: Payload, field: string) {
    if field in p && p[field] != Null then field in q && q[field] == p[field]
    else field !in q || q[field] == Null
  }

  /** The rows agree in every semantic field. */
  ghost predicate MeanTheSame(p: Payload, q: Payload) {
    && SameField(p, q, "title") && SameField(p, q, "topic") && SameField(p, q, "target_capabilities")
    && SameField(p, q, "application_context") && SameField(p, q, "success_criteria")
    && SameField(p, q, "source_document_ids") && SameField(p, q, "deadline_at")
    && SameField(p, q, "weekly_time_budget_minutes")
  }

  lemma FingerprintsAgreeIff(p: Payload, q: Payload)
    ensures FingerprintOf(p) == FingerprintOf(q) <==> MeanTheSame(p, q)
  {
    var a, b := FingerprintOf(p).fields, FingerprintOf(q).fields;
    forall i | 0 <= i < |SEMANTIC_FIELDS|
      ensures a[i] == b[i] <==> SameField(p, q, SEMANTIC_FIELDS[i])
    {
      assert a[i] == Get(p, SEMANTIC_FIELDS[i]) && b[i] == Get(q, SEMANTIC_FIELDS[i]);
    }
    hide SameField, Get;
    assert a == b <==> forall i :: 0 <= i < |SEMANTIC_FIELDS| ==> SameField(p, q, SEMANTIC_FIELDS[i]);
    EightFields(p, q);
  }

  lemma EightFields(p: Payload, q: Payload)
    ensures MeanTheSame(p, q) <==> forall i :: 0 <= i < |SEMANTIC_FIELDS| ==> SameField(p, q, SEMANTIC_FIELDS[i])
  {
    hide SameField;
    assert |SEMANTIC_FIELDS| == 8;
    if forall i :: 0 <= i < |SEMANTIC_FIELDS| ==> SameField(p, q, SEMANTIC_FIELDS[i]) {
      assert SameField(p, q, SEMANTIC_FIELDS[0]) && SameField(p, q, SEMANTIC_FIELDS[1]);
      assert SameField(p, q, SEMANTIC_FIELDS[2]) && SameField(p, q, SEMANTIC_FIELDS[3]);
      assert SameField(p, q, SEMANTIC_FIELDS[4]) && SameField(p, q, SEMANTIC_FIELDS[5]);
      assert SameField(p, q, SEMANTIC_FIELDS[6]) && SameField(p, q, SEMANTIC_FIELDS[7]);
    }
  }

  /** What enumerate() yields: list items, the characters of a string, and nothing else. */
  function Iterated(v: Json): Option<seq<Json>> {
    match v
    case List(items) => Some(items)
    case Text(s) => Some(seq(|s|, i requires 0 <= i < |s| => Text([s[i]])))
    case _ => None
  }

  /** Only an absent list of criteria counts as empty; an explicit null cannot be iterated. */
  function Statements(p: Payload): Option<seq<Json>> {
    if "success_criteria" in p then Iterated(p["success_criteria"]) else Some([])
  }

  function Criteria(goal: string, version: nat, statements: seq<Json>): seq<Criterion> {
    seq(|statements|, i requires 0 <= i < |statements| => Criterion(OfDefinition(goal, version, i), statements[i]))
  }

  /** Without readable criteria no definition is made; the migration stops there. */
  function DefinitionFrom(row: LegacyRow, version: nat): Definition {
    var statements := match Statements(row.payload) case Some(items) => items case None => [];
    Definition(row.goal, version, row.user, FingerprintOf(row.payload), Criteria(row.goal, version, statements),
               if version > 1 then Some(version - 1) else None)
  }

  /** The first field a draft misses, in the order the migration reads them. */
  function DraftError(row: LegacyRow): Option<BackfillError> {
    if "title" !in row.payload then Some(MissingField(row.goal, "title"))
    else if "topic" !in row.payload then Some(MissingField(row.goal, "topic"))
    else if "target_capabilities" !in row.payload then Some(MissingField(row.goal, "target_capabilities"))
    else if "success_criteria" !in row.payload then Some(MissingField(row.goal, "success_criteria"))
    else if Iterated(row.payload["success_criteria"]).None? then Some(NotIterable(row.goal))
    else if "source_document_ids" !in row.payload then Some(MissingField(row.goal, "source_document_ids"))
    else if "created_at" !in row.payload then Some(MissingField(row.goal, "created_at"))
    else None
  }

  function StateError(row: LegacyRow): Option<BackfillError> {
    if "status" !in row.payload then Some(MissingField(row.goal, "status"))
    else if "created_at" !in row.payload then Some(MissingField(row.goal, "created_at"))
    else if row.payload["status"] == Null then Some(NullStatus(row.goal))
    else None
  }

  predicate IsCandidate(row: LegacyRow) {
    Get(row.payload, "status") == Text("candidate")
  }

  function CurrentError(row: LegacyRow): Option<BackfillError> {
    if IsCandidate(row) then DraftError(row) else StateError(row)
  }

  function CurrentFrom(row: LegacyRow, version: nat): Current
    requires CurrentError(row).None?
  {
    if IsCandidate(row) then
      var statements := Iterated(row.payload["success_criteria"]).value;
      var p := row.payload;
      Draft(row.goal, row.user, version, p["title"], p["topic"], p["target_capabilities"],
            Get(p, "application_context"), Get(p, "deadline_at"), Get(p, "weekly_time_budget_minutes"),
            seq(|statements|, i requires 0 <= i < |statements| => Criterion(OfDraft(row.goal, i), statements[i])),
            p["source_document_ids"], p["created_at"])
    else State(row.goal, row.user, version, row.payload["status"], row.payload["created_at"])
  }

  // ---------------------------------------------------------------- what the new rows say

  ghost predicate IsAbsent(p: Payload, field: string, v: Json) {
    v == Null && (field !in p || p[field] == Null)
  }

  ghost predicate HasField(p: Payload, field: string, v: Json) {
    field in p && p[field] == v
  }

  ghost predicate Candidate(p: Payload) {
    HasField(p, "status", Text("candidate"))
  }

  /** The statements are the list's items, or the characters of a text. */
  ghost predicate States(p: Payload, statements: seq<Json>) {
    && "success_criteria" in p
    && match p["success_criteria"]
       case List(items) => statements == items
       case Text(s) => |statements| == |s| && forall i :: 0 <= i < |s| ==> statements[i] == Text([s[i]])
       case _ => false
  }

  ghost predicate HasStatements(p: Payload) {
    "success_criteria" in p && (p["success_criteria"].List? || p["success_criteria"].Text?)
  }

  /** Everything that the draft or state made from the row needs is there. */
  ghost predicate Complete(p: Payload) {
    if Candidate(p) then
      && "title" in p && "topic" in p && "target_capabilities" in p && HasStatements(p)
      && "source_document_ids" in p && "created_at" in p
    else "status" in p && p["status"] != Null && "created_at" in p
  }

  /** The draft or state tells what the row says, and refers to the definition that means the same. */
  ghost predicate CurrentTells(c: Current, row: LegacyRow, definitions: seq<Definition>) {
    var p := row.payload;
    && c.goal == row.goal && c.user == row.user
    && (if Candidate(p) then
          && c.Draft? && 1 <= c.base <= |definitions| && definitions[c.base - 1].fingerprint == FingerprintOf(p)
          && HasField(p, "title", c.title) && HasField(p, "topic", c.topic)
          && HasField(p, "target_capabilities", c.targetCapabilities)
          && (HasField(p, "application_context", c.applicationContext)
              || IsAbsent(p, "application_context", c.applicationContext))
          && (HasField(p, "deadline_at", c.deadlineAt) || IsAbsent(p, "deadline_at", c.deadlineAt))
          && (HasField(p, "weekly_time_budget_minutes", c.weeklyTimeBudgetMinutes)
              || IsAbsent(p, "weekly_time_budget_minutes", c.weeklyTimeBudgetMinutes))
          && HasField(p, "source_document_ids", c.sourceDocumentIds) && HasField(p, "created_at", c.createdAt)
          && States(p, Told(c.criteria))
          && forall i :: 0 <= i < |c.criteria| ==> c.criteria[i].id == OfDraft(row.goal, i)
        else
          && c.State? && 1 <= c.definition <= |definitions|
          && definitions[c.definition - 1].fingerprint == FingerprintOf(p)
          && HasField(p, "status", c.status) && HasField(p, "created_at", c.createdAt))
  }

  ghost function Told(criteria: seq<Criterion>): seq<Json> {
    seq(|criteria|, i requires 0 <= i < |criteria| => criteria[i].statement)
  }

  /** The definition tells what its first row says. */
  ghost predicate DefinitionTells(d: Definition, row: LegacyRow, version: nat) {
    && d.goal == row.goal && d.user == row.user && d.version == version && d.fingerprint == FingerprintOf(row.payload)
    && d.supersedes == (if version > 1 then Some(version - 1) else None)
    && (if "success_criteria" in row.payload then States(row.payload, Told(d.criteria)) else d.criteria == [])
    && forall i :: 0 <= i < |d.criteria| ==> d.criteria[i].id == OfDefinition(row.goal, version, i)
  }

  lemma CompleteIff(row: LegacyRow)
    ensures CurrentError(row).None? <==> Complete(row.payload)
  {}

  lemma CurrentFromTells(row: LegacyRow, version: nat, definitions: seq<Definition>)
    requires CurrentError(row).None? && 1 <= version <= |definitions|
    requires definitions[version - 1].fingerprint == FingerprintOf(row.payload)
    ensures CurrentTells(CurrentFrom(row, version), row, definitions)
  {
    hide FingerprintOf;
    if IsCandidate(row) {
      assert Told(CurrentFrom(row, version).criteria) == Iterated(row.payload["success_criteria"]).value;
    }
  }

  lemma DefinitionFromTells(row: LegacyRow, version: nat)
    requires Statements(row.payload).Some?
    ensures DefinitionTells(DefinitionFrom(row, version), row, version)
  {
    hide FingerprintOf;
    assert Told(DefinitionFrom(row, version).criteria) == Statements(row.payload).value;
  }

  // ---------------------------------------------------------------- the history so far

  predicate Means(row: LegacyRow, mark: Fingerprint) {
    FingerprintOf(row.payload) == mark
  }

  /** One of the first n rows has this meaning. */
  ghost predicate Known(rows: seq<LegacyRow>, n: nat, mark: Fingerprint)
    requires n <= |rows|
  {
    exists i :: 0 <= i < n && Means(rows[i], mark)
  }

  ghost predicate IsFirst(rows: seq<LegacyRow>, k: nat)
    requires k < |rows|
  {
    !Known(rows, k, FingerprintOf(rows[k].payload))
  }

  /** A definition for each first row of its meaning among the first n. */
  ghost function Definitions(rows: seq<LegacyRow>, n: nat): seq<Definition>
    requires n <= |rows|
  {
    if n == 0 then []
    else
      var before := Definitions(rows, n - 1);
      if IsFirst(rows, n - 1) then before + [DefinitionFrom(rows[n - 1], |before| + 1)] else before
  }

  /** The version a meaning got: that of the definition carrying its fingerprint. */
  ghost function VersionOf(rows: seq<LegacyRow>, n: nat, mark: Fingerprint): (v: nat)
    requires n <= |rows| && Known(rows, n, mark)
    ensures 1 <= v <= |Definitions(rows, n)| && Definitions(rows, n)[v - 1].fingerprint == mark
  {
    if Known(rows, n - 1, mark) then VersionOf(rows, n - 1, mark) else |Definitions(rows, n - 1)| + 1
  }

  /** Two legacy rows share a version exactly when they agree in every semantic field. */
  lemma RowsShareAVersionIff(rows: seq<LegacyRow>, i: nat, j: nat)
    requires i < |rows| && j < |rows|
    ensures Known(rows, |rows|, FingerprintOf(rows[i].payload)) && Known(rows, |rows|, FingerprintOf(rows[j].payload))
    ensures VersionOf(rows, |rows|, FingerprintOf(rows[i].payload)) == VersionOf(rows, |rows|,
      FingerprintOf(rows[j].payload))
       <==> MeanTheSame(rows[i].payload, rows[j].payload)
  {
    hide FingerprintOf, MeanTheSame, Definitions;
    assert Means(rows[i], FingerprintOf(rows[i].payload)) && Means(rows[j], FingerprintOf(rows[j].payload));
    FingerprintsAgreeIff(rows[i].payload, rows[j].payload);
  }

  /** A row is the first of its meaning when none before it agrees in every semantic field. */
  lemma IsFirstIff(rows: seq<LegacyRow>, k: nat)
    requires k < |rows|
    ensures IsFirst(rows, k) <==> forall j :: 0 <= j < k ==> !MeanTheSame(rows[j].payload, rows[k].payload)
  {
    hide FingerprintOf, MeanTheSame;
    forall j | 0 <= j < k
      ensures Means(rows[j], FingerprintOf(rows[k].payload)) <==> MeanTheSame(rows[j].payload, rows[k].payload)
    {
      FingerprintsAgreeIff(rows[j].payload, rows[k].payload);
    }
  }

  /** The first row of each meaning makes its definition, which tells what the row says. */
  lemma FirstRowTells(rows: seq<LegacyRow>, n: nat, k: nat) returns (v: nat)
    requires k < n <= |rows| && Readable(rows, n)
    requires forall j :: 0 <= j < k ==> !MeanTheSame(rows[j].payload, rows[k].payload)
    ensures 1 <= v <= |Definitions(rows, n)| && DefinitionTells(Definitions(rows, n)[v - 1], rows[k], v)
  {
    IsFirstIff(rows, k);
    FirstRowMakesTheDefinition(rows, n, k);
    v := |Definitions(rows, k)| + 1;
    DefinitionFromTells(rows[k], v);
  }

  /** The first row of each meaning makes its definition, and later first rows get higher versions. */
  lemma {:induction false} FirstRowMakesTheDefinition(rows: seq<LegacyRow>, n: nat, k: nat)
    requires k < n <= |rows| && IsFirst(rows, k)
    ensures var mark := FingerprintOf(rows[k].payload); var v := |Definitions(rows, k)| + 1;
      && Known(rows, n, mark) && VersionOf(rows, n, mark) == v
      && v <= |Definitions(rows, n)| && Definitions(rows, n)[v - 1] == DefinitionFrom(rows[k], v)
  {
    hide FingerprintOf, DefinitionFrom;
    var mark := FingerprintOf(rows[k].payload);
    assert Means(rows[k], mark);
    if k < n - 1 {
      FirstRowMakesTheDefinition(rows, n - 1, k);
    }
  }

  /** Versions are 1..k, each superseding the one before, and no two have the same meaning. */
  lemma {:induction false} DefinitionsFormOneChain(rows: seq<LegacyRow>, n: nat)
    requires n <= |rows|
    ensures forall d :: 0 <= d < |Definitions(rows, n)| ==>
      && Definitions(rows, n)[d].version == d + 1
      && Definitions(rows, n)[d].supersedes == (if d == 0 then None else Some(d))
      && Known(rows, n, Definitions(rows, n)[d].fingerprint)
    ensures forall c, d :: 0 <= c < d < |Definitions(rows, n)| ==>
      Definitions(rows, n)[c].fingerprint != Definitions(rows, n)[d].fingerprint
  {
    if n > 0 {
      DefinitionsFormOneChain(rows, n - 1);
      assert Means(rows[n - 1], FingerprintOf(rows[n - 1].payload));
    }
  }

  /** Further legacy rows only append definitions: versions once given out are not renumbered. */
  lemma {:induction false} MoreHistoryOnlyAppends(rows: seq<LegacyRow>, more: seq<LegacyRow>, n: nat)
    requires n <= |rows|
    ensures Definitions(rows + more, n) == Definitions(rows, n)
  {
    if n > 0 {
      MoreHistoryOnlyAppends(rows, more, n - 1);
      assert forall i :: 0 <= i < n ==> (rows + more)[i] == rows[i];
      assert IsFirst(rows + more, n - 1) <==> IsFirst(rows, n - 1);
    }
  }

  // ---------------------------------------------------------------- the migration

  /** Every first row of its meaning among the first n can be read. */
  ghost predicate Readable(rows: seq<LegacyRow>, n: nat)
    requires n <= |rows|
  {
    forall k :: 0 <= k < n && IsFirst(rows, k) ==> Statements(rows[k].payload).Some?
  }

  ghost predicate Assigned(rows: seq<LegacyRow>, n: nat, fingerprints: map<Fingerprint, nat>)
    requires n <= |rows|
  {
    && |fingerprints| == |Definitions(rows, n)|
    && (forall x :: x in fingerprints <==> Known(rows, n, x))
    && forall x :: x in fingerprints ==> fingerprints[x] == VersionOf(rows, n, x)
  }

  lemma NothingAssigned(rows: seq<LegacyRow>)
    ensures Assigned(rows, 0, map[])
  {}

  /** A known meaning keeps its version; a new one gets the next. */
  lemma KnownMeaning(rows: seq<LegacyRow>, n: nat, fingerprints: map<Fingerprint, nat>)
    requires n < |rows| && Assigned(rows, n, fingerprints) && FingerprintOf(rows[n].payload) in fingerprints
    ensures !IsFirst(rows, n) && Assigned(rows, n + 1, fingerprints)
  {
    hide FingerprintOf, DefinitionFrom, Means;
    forall x
      ensures Known(rows, n + 1, x) <==> Known(rows, n, x)
    {
      KnownGrows(rows, n, x);
    }
  }

  lemma NewMeaning(rows: seq<LegacyRow>, n: nat, fingerprints: map<Fingerprint, nat>)
    requires n < |rows| && Assigned(rows, n, fingerprints) && FingerprintOf(rows[n].payload) !in fingerprints
    ensures IsFirst(rows, n)
      && Assigned(rows, n + 1, fingerprints[FingerprintOf(rows[n].payload) := |fingerprints| + 1])
  {
    hide FingerprintOf, DefinitionFrom, Means;
    var mark := FingerprintOf(rows[n].payload);
    forall x
      ensures Known(rows, n + 1, x) <==> Known(rows, n, x) || x == mark
    {
      KnownGrows(rows, n, x);
    }
  }

  lemma KnownGrows(rows: seq<LegacyRow>, n: nat, x: Fingerprint)
    requires n < |rows|
    ensures Known(rows, n + 1, x) <==> Known(rows, n, x) || x == FingerprintOf(rows[n].payload)
  {
    if x == FingerprintOf(rows[n].payload) { assert Means(rows[n], x); }
  }

  /** The migration of one goal's rows: definitions from the first row of each meaning, and the one draft or state,
      made from the latest row, referring to the definition that means the same. */
  ghost predicate IsHistoryOf(h: History, rows: seq<LegacyRow>) {
    && rows != [] && CurrentError(rows[|rows| - 1]).None?
    && h.definitions == Definitions(rows, |rows|)
    && Known(rows, |rows|, FingerprintOf(rows[|rows| - 1].payload))
    && h.current == CurrentFrom(rows[|rows| - 1], VersionOf(rows, |rows|, FingerprintOf(rows[|rows| - 1].payload)))
  }

  /** One goal's history, told by the rows themselves: a definition for each first row of its meaning and no other, and
      the draft or state of the latest row. */
  ghost predicate Tells(h: History, rows: seq<LegacyRow>) {
    && rows != [] && CurrentTells(h.current, rows[|rows| - 1], h.definitions)
    && (forall k :: 0 <= k < |rows| && FirstOfItsMeaning(rows, k) ==>
          exists d :: 0 <= d < |h.definitions| && DefinitionTells(h.definitions[d], rows[k], d + 1))
    && (forall d :: 0 <= d < |h.definitions| ==> Known(rows, |rows|, h.definitions[d].fingerprint))
    && forall c, d :: 0 <= c < d < |h.definitions| ==> h.definitions[c].fingerprint != h.definitions[d].fingerprint
  }

  ghost predicate FirstOfItsMeaning(rows: seq<LegacyRow>, k: nat)
    requires k < |rows|
  {
    forall j :: 0 <= j < k ==> !MeanTheSame(rows[j].payload, rows[k].payload)
  }

  /** What the migration needs of a goal's rows. */
  ghost predicate Migratable(rows: seq<LegacyRow>) {
    && rows != [] && Complete(rows[|rows| - 1].payload)
    && forall k :: 0 <= k < |rows| && FirstOfItsMeaning(rows, k) ==>
      ("success_criteria" in rows[k].payload ==> HasStatements(rows[k].payload))
  }

  lemma MigratableIff(rows: seq<LegacyRow>)
    requires rows != []
    ensures Readable(rows, |rows|) && CurrentError(rows[|rows| - 1]).None? <==> Migratable(rows)
  {
    hide MeanTheSame, FingerprintOf;
    CompleteIff(rows[|rows| - 1]);
    hide Complete, CurrentError;
    forall k | 0 <= k < |rows|
      ensures IsFirst(rows, k) <==> FirstOfItsMeaning(rows, k)
    {
      IsFirstIff(rows, k);
    }
    hide IsFirst, FirstOfItsMeaning;
  }

  lemma HistoryTells(h: History, rows: seq<LegacyRow>)
    requires IsHistoryOf(h, rows) && Readable(rows, |rows|)
    ensures Tells(h, rows)
  {
    hide MeanTheSame, FingerprintOf, DefinitionTells, CurrentTells, CurrentFrom, CurrentError, Readable;
    var latest := rows[|rows| - 1];
    CurrentFromTells(latest, VersionOf(rows, |rows|, FingerprintOf(latest.payload)), h.definitions);
    DefinitionsFormOneChain(rows, |rows|);
    hide VersionOf, Definitions;
    forall k | 0 <= k < |rows| && FirstOfItsMeaning(rows, k)
      ensures exists d :: 0 <= d < |h.definitions| && DefinitionTells(h.definitions[d], rows[k], d + 1)
    {
      var v := FirstRowTells(rows, |rows|, k);
      assert DefinitionTells(h.definitions[v - 1], rows[k], (v - 1) + 1);
    }
  }

  /** One goal's history.  It fails exactly when a needed row cannot be read. */
  method BackfillGoal(goal: string, rows: seq<LegacyRow>) returns (r: Result<History, BackfillError>)
    requires rows != [] && forall i :: 0 <= i < |rows| ==> rows[i].goal == goal
    ensures r.Ok? <==> Readable(rows, |rows|) && CurrentError(rows[|rows| - 1]).None?
    ensures r.Ok? ==> IsHistoryOf(r.value, rows)
    ensures r.Ok? <==> Migratable(rows)
    ensures r.Err? ==> r.error.goal == goal
    ensures r.Err? && r.error.MissingField? ==> r.error.field !in rows[|rows| - 1].payload
    ensures r.Err? && r.error.NullStatus? ==> HasField(rows[|rows| - 1].payload, "status", Null)
    ensures r.Ok? ==> Tells(r.value, rows)
  {
    hide FingerprintOf, Known, VersionOf, Migratable, Tells;
    MigratableIff(rows);
    var fingerprints: map<Fingerprint, nat> := map[];
    var legacyToDefinition: map<int, nat> := map[];
    var definitions: seq<Definition> := [];
    NothingAssigned(rows);
    for n := 0 to |rows|
      invariant definitions == Definitions(rows, n) && Readable(rows, n) && Assigned(rows, n, fingerprints)
      invariant n > 0 ==> (
        && Known(rows, n, FingerprintOf(rows[n - 1].payload)) && rows[n - 1].version in legacyToDefinition
        && legacyToDefinition[rows[n - 1].version] == VersionOf(rows, n, FingerprintOf(rows[n - 1].payload)))
    {
      var row := rows[n];
      var mark := FingerprintOf(row.payload);
      KnownGrows(rows, n, mark);
      if mark in fingerprints {
        KnownMeaning(rows, n, fingerprints);
        legacyToDefinition := legacyToDefinition[row.version := fingerprints[mark]];
      } else {
        NewMeaning(rows, n, fingerprints);
        var version := |fingerprints| + 1;
        fingerprints := fingerprints[mark := version];
        legacyToDefinition := legacyToDefinition[row.version := version];
        var statements := Statements(row.payload);
        if statements.None? {
          return Err(NotIterable(goal));
        }
        definitions := definitions + [
          Definition(goal, version, row.user, mark, Criteria(goal, version, statements.value),
                     if version > 1 then Some(version - 1) else None)];
      }
    }
    var latest := rows[|rows| - 1];
    var error := CurrentError(latest);
    if error.Some? {
      return Err(error.value);
    }
    var history := History(definitions, CurrentFrom(latest, legacyToDefinition[latest.version]));
    HistoryTells(history, rows);
    return Ok(history);
  }

  // ---------------------------------------------------------------- all goals

  /** The rows of one goal, in scan order. */
  function OfGoal(rows: seq<LegacyRow>, goal: string): seq<LegacyRow> {
    if rows == [] then []
    else
      var before := OfGoal(rows[..|rows| - 1], goal);
      if rows[|rows| - 1].goal == goal then before + [rows[|rows| - 1]] else before
  }

  lemma {:induction false} OfGoalHoldsItsRows(rows: seq<LegacyRow>, goal: string)
    ensures forall i :: 0 <= i < |OfGoal(rows, goal)| ==>
      OfGoal(rows, goal)[i].goal == goal && OfGoal(rows, goal)[i] in rows
    ensures OfGoal(rows, goal) != [] <==> exists row :: row in rows && row.goal == goal
  {
    if rows != [] {
      var init, last := rows[..|rows| - 1], rows[|rows| - 1];
      OfGoalHoldsItsRows(init, goal);
      assert rows == init + [last];
    }
  }

  /** The scan is ordered by version within each goal. */
  ghost predicate Ordered(rows: seq<LegacyRow>) {
    forall i, j :: 0 <= i < j < |rows| && rows[i].goal == rows[j].goal ==> rows[i].version <= rows[j].version
  }

  /** The row that decides about draft or state is the goal's greatest version. */
  lemma {:induction false} LatestRowIsTheGreatestVersion(rows: seq<LegacyRow>, goal: string)
    requires Ordered(rows) && OfGoal(rows, goal) != []
    ensures var own := OfGoal(rows, goal);
      forall row :: row in rows && row.goal == goal ==> row.version <= own[|own| - 1].version
  {
    var init, last := rows[..|rows| - 1], rows[|rows| - 1];
    assert rows == init + [last];
    if last.goal == goal {
      forall row | row in rows && row.goal == goal
        ensures row.version <= last.version
      {
        var i :| 0 <= i < |rows| && rows[i] == row;
      }
    } else {
      LatestRowIsTheGreatestVersion(init, goal);
    }
  }

  function GoalNames(rows: seq<LegacyRow>): seq<string> {
    seq(|rows|, i requires 0 <= i < |rows| => rows[i].goal)
  }

  datatype GoalHistory = GoalHistory(goal: string, history: History)

  /** All goals, each from its own rows only, in the order the scan first meets them; one unreadable goal stops the
      whole migration. */
  method Backfill(rows: seq<LegacyRow>) returns (r: Result<seq<GoalHistory>, BackfillError>)
    ensures r.Ok? <==> forall goal :: goal in GoalNames(rows) ==> GoalReadable(OfGoal(rows, goal))
    ensures r.Ok? ==> |r.value| == |FirstOccurrences(GoalNames(rows))|
    ensures r.Ok? ==> forall i :: 0 <= i < |r.value| ==>
      r.value[i].goal == FirstOccurrences(GoalNames(rows))[i]
        && IsHistoryOf(r.value[i].history, OfGoal(rows, r.value[i].goal))
    ensures r.Ok? ==> forall i :: 0 <= i < |r.value| ==> Tells(r.value[i].history, OfGoal(rows, r.value[i].goal))
  {
    hide IsHistoryOf, Readable, OfGoal, FirstOccurrences, Migratable, Tells;
    var byGoal, order := GroupByGoal(rows);
    FirstOccurrencesKeepsElements(GoalNames(rows));
    var histories: seq<GoalHistory> := [];
    for n := 0 to |order|
      invariant |histories| == n
      invariant forall i :: 0 <= i < n ==> GoalReadable(OfGoal(rows, order[i]))
      invariant forall i :: 0 <= i < n ==>
        histories[i].goal == order[i] && IsHistoryOf(histories[i].history, OfGoal(rows, order[i]))
          && Tells(histories[i].history, OfGoal(rows, order[i]))
    {
      OfGoalHoldsItsRows(rows, order[n]);
      NamesAreRows(rows, order[n]);
      var history := BackfillGoal(order[n], byGoal[order[n]]);
      if history.Err? {
        assert order[n] in GoalNames(rows);
        return Err(history.error);
      }
      histories := histories + [GoalHistory(order[n], history.value)];
    }
    return Ok(histories);
  }

  ghost predicate GoalReadable(rows: seq<LegacyRow>) {
    rows != [] && Readable(rows, |rows|) && CurrentError(rows[|rows| - 1]).None?
  }

  lemma NamesAreRows(rows: seq<LegacyRow>, goal: string)
    requires goal in GoalNames(rows)
    ensures exists row :: row in rows && row.goal == goal
  {
    var i :| 0 <= i < |rows| && GoalNames(rows)[i] == goal;
    assert rows[i] in rows;
  }

  lemma NoRows(rows: seq<LegacyRow>)
    ensures FirstOccurrences(GoalNames(rows[..0])) == [] && forall goal :: OfGoal(rows[..0], goal) == []
  {}

  lemma NextRow(rows: seq<LegacyRow>, n: nat)
    requires n < |rows|
    ensures var order := FirstOccurrences(GoalNames(rows[..n]));
      FirstOccurrences(GoalNames(rows[..n + 1])) == if rows[n].goal in order then order else order + [rows[n].goal]
    ensures forall goal ::
      OfGoal(rows[..n + 1], goal) == if rows[n].goal == goal then OfGoal(rows[..n], goal) + [rows[n]]
        else OfGoal(rows[..n], goal)
  {
    assert rows[..n + 1][..n] == rows[..n];
    assert GoalNames(rows[..n + 1]) == GoalNames(rows[..n]) + [rows[n].goal];
    FirstOccurrencesSnoc(GoalNames(rows[..n]), rows[n].goal);
  }

  /** The dictionary of lists, and its keys in insertion order. */
  method GroupByGoal(rows: seq<LegacyRow>) returns (byGoal: map<string, seq<LegacyRow>>, order: seq<string>)
    ensures order == FirstOccurrences(GoalNames(rows))
    ensures forall goal :: goal in byGoal <==> goal in order
    ensures forall goal :: goal in byGoal ==> byGoal[goal] == OfGoal(rows, goal)
  {
    hide OfGoal, FirstOccurrences, GoalNames;
    NoRows(rows);
    byGoal, order := map[], [];
    for n := 0 to |rows|
      invariant order == FirstOccurrences(GoalNames(rows[..n]))
      invariant forall goal :: goal in byGoal <==> goal in order
      invariant forall goal :: OfGoal(rows[..n], goal) == if goal in byGoal then byGoal[goal] else []
    {
      var row := rows[n];
      NextRow(rows, n);
      if row.goal !in byGoal {
        byGoal, order := byGoal[row.goal := []], order + [row.goal];
      }
      assert OfGoal(rows[..n], row.goal) == byGoal[row.goal];
      byGoal := byGoal[row.goal := byGoal[row.goal] + [row]];
    }
    assert rows[..|rows|] == rows;
  }

  // ---------------------------------------------------------------- plan states

  datatype PlanRow = PlanRow(plan: string, version: int, status: string, payload: Payload, createdAt: string)

  /** The first state of a plan version; `createdAt` is the payload's own unless that is absent, null or empty. */
  datatype PlanState = PlanState(plan: string, version: int, status: string, createdAt: Json)

  /** Python's truth value. */
  predicate IsTrue(v: Json) {
    match v
    case Null => false
    case Flag(flag) => flag
    case Number(token) => token != "0" && token != "0.0" && token != "-0" && token != "-0.0"
    case Text(text) => text != ""
    case List(items) => items != []
  }

  function PlanStateOf(row: PlanRow): PlanState {
    var own := Get(row.payload, "created_at");
    PlanState(row.plan, row.version, row.status, if IsTrue(own) then own else Text(row.createdAt))
  }

  /** One state for each plan row, in scan order, with the row's own status. */
  method BackfillPlanStates(rows: seq<PlanRow>) returns (states: seq<PlanState>)
    ensures |states| == |rows| && forall i :: 0 <= i < |rows| ==>
      && states[i].plan == rows[i].plan && states[i].version == rows[i].version && states[i].status == rows[i].status
      && (if "created_at" in rows[i].payload && IsTrue(rows[i].payload["created_at"])
          then states[i].createdAt == rows[i].payload["created_at"]
          else states[i].createdAt == Text(rows[i].createdAt))
  {
    states := [];
    for n := 0 to |rows|
      invariant |states| == n && forall i :: 0 <= i < n ==> states[i] == PlanStateOf(rows[i])
    {
      states := states + [PlanStateOf(rows[n])];
    }
  }
}
