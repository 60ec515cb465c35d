/** The digest that ties a confirmed erasure to its preview: what it fixes about a plan, and what it does not. */
module PlanDigest {
  import opened Prelude
  import opened DeletionPlans
  import opened ForeignKeys
  import Decimals
  import RecordIds
  import TextOrder

  datatype Listing = Listing(owner: string, table: string, ids: seq<string>)

  /** The JSON document that is hashed. */
  datatype Canonical = Canonical(listings: seq<Listing>, fileNames: seq<string>)

  /** SHA-256 of the canonical document, taken to be injective. */
  datatype Digest = Sha256(document: Canonical)

  /** Python's str() of a key value. */
  function Shown(v: Value): string {
    match v
    case Text(t) => t
    case Number(n) => Decimals.Show(n)
  }

  function ShownIds(op: Operation): seq<string> {
    seq(|op.recordIds|, i requires 0 <= i < |op.recordIds| => Shown(op.recordIds[i]))
  }

  /** Last component of a path. */
  function NameOf(path: Path): string {
    if path == [] || path[|path| - 1] == '/' then [] else NameOf(path[..|path| - 1]) + [path[|path| - 1]]
  }

  function FileNames(files: seq<Path>): seq<string> {
    seq(|files|, i requires 0 <= i < |files| => NameOf(files[i]))
  }

  function ListingOf(op: Operation): Listing {
    Listing(op.owner, op.table, TextOrder.Sort(ShownIds(op)))
  }

  function DigestOf(plan: Plan): Digest {
    Sha256(Canonical(
      seq(|plan.operations|, i requires 0 <= i < |plan.operations| => ListingOf(plan.operations[i])),
      TextOrder.Sort(FileNames(plan.files))))
  }

  /** Operation by operation the same owner, table and ids as text, in any order; the same file names, in any order. */
  ghost predicate SameListing(p: Plan, q: Plan) {
    && |p.operations| == |q.operations|
    && (forall i :: 0 <= i < |p.operations| ==> SameIds(p.operations[i], q.operations[i]))
    && multiset(FileNames(p.files)) == multiset(FileNames(q.files))
  }

  ghost predicate SameIds(a: Operation, b: Operation) {
    a.owner == b.owner && a.table == b.table && multiset(ShownIds(a)) == multiset(ShownIds(b))
  }

  /** The digest is exactly the listing: neither the order the database returned ids and files in, nor anything
      else the listing omits, can change it. */
  lemma DigestsAgreeIff(p: Plan, q: Plan)
    ensures DigestOf(p) == DigestOf(q) <==> SameListing(p, q)
  {
    TextOrder.SortIsCanonical(FileNames(p.files), FileNames(q.files));
    var a, b := DigestOf(p).document.listings, DigestOf(q).document.listings;
    assert |a| == |p.operations| && |b| == |q.operations|;
    if |a| == |b| {
      forall i | 0 <= i < |a|
        ensures a[i] == b[i] <==> SameIds(p.operations[i], q.operations[i])
      {
        TextOrder.SortIsCanonical(ShownIds(p.operations[i]), ShownIds(q.operations[i]));
      }
      assert a == b <==> forall i :: 0 <= i < |a| ==> a[i] == b[i];
    }
  }

  /** The same plan with ids and files in whatever order the database and the file system return them. */
  ghost predicate Reordered(p: Plan, q: Plan) {
    && |p.operations| == |q.operations|
    && (forall i :: 0 <= i < |p.operations| ==> ReorderedOperation(p.operations[i], q.operations[i]))
    && multiset(p.files) == multiset(q.files)
  }

  ghost predicate ReorderedOperation(a: Operation, b: Operation) {
    && a.owner == b.owner && a.table == b.table && a.primaryKey == b.primaryKey
      && a.exactPredicates == b.exactPredicates
    && multiset(a.recordIds) == multiset(b.recordIds)
  }

  function Mapped<T>(s: seq<T>, f: T -> string): seq<string> {
    seq(|s|, i requires 0 <= i < |s| => f(s[i]))
  }

  lemma {:induction false} MappedKeepsTheBag<T>(a: seq<T>, b: seq<T>, f: T -> string)
    requires multiset(a) == multiset(b)
    ensures multiset(Mapped(a, f)) == multiset(Mapped(b, f))
    decreases |a|
  {
    if a == [] {
      assert |multiset(b)| == 0;
    } else {
      assert a[0] in multiset(b);
      var j :| 0 <= j < |b| && b[j] == a[0];
      var rest := TakenOut(b, j);
      assert a == [a[0]] + a[1..];
      assert multiset(a[1..]) == multiset(a) - multiset{a[0]};
      MappedKeepsTheBag(a[1..], rest, f);
      MappedConcatenates([a[0]], a[1..], f);
      MappedTakenOut(b, j, rest, f);
      assert Mapped([a[0]], f) == [f(a[0])];
    }
  }

  lemma TakenOut<T>(b: seq<T>, j: nat) returns (rest: seq<T>)
    requires j < |b|
    ensures rest == b[..j] + b[j + 1..] && multiset(rest) == multiset(b) - multiset{b[j]}
  {
    rest := b[..j] + b[j + 1..];
    assert b == b[..j] + [b[j]] + b[j + 1..];
    assert multiset(b) == multiset(b[..j]) + multiset{b[j]} + multiset(b[j + 1..]);
  }

  lemma MappedConcatenates<T>(a: seq<T>, b: seq<T>, f: T -> string)
    ensures Mapped(a + b, f) == Mapped(a, f) + Mapped(b, f)
  {}

  lemma MappedTakenOut<T>(b: seq<T>, j: nat, rest: seq<T>, f: T -> string)
    requires j < |b| && rest == b[..j] + b[j + 1..]
    ensures multiset(Mapped(b, f)) == multiset(Mapped(rest, f)) + multiset{f(b[j])}
  {
    MappedConcatenates(b[..j], b[j + 1..], f);
    MappedConcatenates(b[..j], [b[j]] + b[j + 1..], f);
    MappedConcatenates([b[j]], b[j + 1..], f);
    assert b == b[..j] + ([b[j]] + b[j + 1..]);
    assert Mapped([b[j]], f) == [f(b[j])];
  }

  /** Order never shows in the digest. */
  lemma ReorderingKeepsTheDigest(p: Plan, q: Plan)
    requires Reordered(p, q)
    ensures DigestOf(p) == DigestOf(q)
  {
    forall i | 0 <= i < |p.operations|
      ensures SameIds(p.operations[i], q.operations[i])
    {
      var a, b := p.operations[i], q.operations[i];
      assert ReorderedOperation(a, b);
      MappedKeepsTheBag(a.recordIds, b.recordIds, Shown);
      assert Mapped(a.recordIds, Shown) == ShownIds(a) && Mapped(b.recordIds, Shown) == ShownIds(b);
    }
    MappedKeepsTheBag(p.files, q.files, NameOf);
    assert Mapped(p.files, NameOf) == FileNames(p.files) && Mapped(q.files, NameOf) == FileNames(q.files);
    DigestsAgreeIff(p, q);
  }

  // ---------------------------------------------------------------- what an accepted digest guarantees

  /** A key column, and whether its values are text or numbers. */
  datatype KeyColumn = KeyColumn(name: string, textual: bool)

  /** How a planner names the rows of a table: by one column's values, or one row at a time by its whole key, listed
      as the rendered record id. */
  datatype Keying = ByColumn(column: KeyColumn) | ByRecord(columns: seq<KeyColumn>)

  function NamesOf(columns: seq<KeyColumn>): seq<string> {
    seq(|columns|, i requires 0 <= i < |columns| => columns[i].name)
  }

  predicate FitsColumns(key: Key, columns: seq<KeyColumn>) {
    && (forall c :: c in key.Keys ==> c in NamesOf(columns))
    && forall i :: 0 <= i < |columns| ==> FitsColumn(key, columns[i])
  }

  predicate FitsColumn(key: Key, column: KeyColumn) {
    column.name in key && key[column.name].Text? == column.textual && '|' !in column.name
  }

  function ShownValues(columns: seq<KeyColumn>, key: Key): seq<string>
    requires FitsColumns(key, columns)
  {
    seq(|columns|, i requires 0 <= i < |columns| && FitsColumn(key, columns[i]) => Shown(key[columns[i].name]))
  }

  function RecordIdOf(columns: seq<KeyColumn>, key: Key): string
    requires FitsColumns(key, columns)
  {
    RecordIds.Rendered(NamesOf(columns), ShownValues(columns, key))
  }

  predicate KeyedBy(op: Operation, keying: Keying) {
    match keying
    case ByColumn(column) =>
      op.exactPredicates == [] && op.primaryKey == column.name &&
        forall v :: v in op.recordIds ==> v.Text? == column.textual
    case ByRecord(columns) =>
      && |op.exactPredicates| == 1 && FitsColumns(op.exactPredicates[0], columns)
      && op.recordIds == [Text(RecordIdOf(columns, op.exactPredicates[0]))]
  }

  /** Plans as the planners of one scope build them. */
  ghost predicate Keyed(plan: Plan, schema: string -> Keying) {
    forall i :: 0 <= i < |plan.operations| ==> KeyedBy(plan.operations[i], schema(plan.operations[i].table))
  }

  lemma ShownInjective(v: Value, w: Value)
    requires Shown(v) == Shown(w) && v.Text? == w.Text?
    ensures v == w
  {
    if v.Number? { Decimals.ShowInjective(v.number, w.number); }
  }

  lemma SameValuesSameKey(columns: seq<KeyColumn>, k: Key, l: Key)
    requires FitsColumns(k, columns) && FitsColumns(l, columns) && ShownValues(columns, k) == ShownValues(columns, l)
    ensures k == l
  {
    assert k.Keys == l.Keys;
    forall c | c in k.Keys
      ensures k[c] == l[c]
    {
      var i :| 0 <= i < |NamesOf(columns)| && NamesOf(columns)[i] == c;
      assert FitsColumn(k, columns[i]) && FitsColumn(l, columns[i]);
      assert ShownValues(columns, k)[i] == ShownValues(columns, l)[i];
      ShownInjective(k[c], l[c]);
    }
  }

  /** The record id has no other reading. */
  ghost predicate Unambiguous(columns: seq<KeyColumn>, key: Key)
    requires FitsColumns(key, columns)
  {
    !RecordIds.Ambiguous(NamesOf(columns), ShownValues(columns, key))
  }

  /** As every id column of the schema holds values without a bar. */
  lemma BarFreeIsUnambiguous(columns: seq<KeyColumn>, key: Key)
    requires FitsColumns(key, columns) && forall c :: c in key ==> '|' !in Shown(key[c])
    ensures Unambiguous(columns, key)
  {
    forall i | 0 <= i < |columns|
      ensures '|' !in ShownValues(columns, key)[i]
    {
      assert FitsColumn(key, columns[i]);
    }
    RecordIds.NoBarNoOtherReading(NamesOf(columns), ShownValues(columns, key));
  }

  lemma UnambiguousIdFixesTheKey(columns: seq<KeyColumn>, k: Key, l: Key)
    requires FitsColumns(k, columns) && FitsColumns(l, columns) && Unambiguous(columns, k)
    requires RecordIdOf(columns, k) == RecordIdOf(columns, l)
    ensures k == l
  {
    if ShownValues(columns, k) != ShownValues(columns, l) {
      assert forall i :: 0 <= i < |columns| ==> FitsColumn(k, columns[i]);
      RecordIds.OtherReadingIsAmbiguous(NamesOf(columns), ShownValues(columns, k), ShownValues(columns, l));
    }
    SameValuesSameKey(columns, k, l);
  }

  /** The key a one-row operation names, as a row of just these columns. */
  function NamedRow(op: Operation): Row
    requires op.exactPredicates != []
  {
    Row(op.table, op.exactPredicates[0])
  }

  /** Operations listed alike name the same keys. */
  ghost predicate ListedAlike(a: Operation, b: Operation, keying: Keying) {
    && SameIds(a, b) && KeyedBy(a, keying) && KeyedBy(b, keying)
    && (keying.ByRecord? && RecordIdOf(keying.columns, a.exactPredicates[0]) == RecordIdOf(keying.columns,
      b.exactPredicates[0]) ==>
          a.exactPredicates[0] == b.exactPredicates[0])
  }

  lemma OneRecordId(a: Operation, b: Operation, columns: seq<KeyColumn>)
    requires SameIds(a, b) && KeyedBy(a, ByRecord(columns)) && KeyedBy(b, ByRecord(columns))
    ensures RecordIdOf(columns, a.exactPredicates[0]) == RecordIdOf(columns, b.exactPredicates[0])
  {
    var x, y := RecordIdOf(columns, a.exactPredicates[0]), RecordIdOf(columns, b.exactPredicates[0]);
    assert ShownIds(a) == [x] && ShownIds(b) == [y];
    assert x in multiset(ShownIds(b));
  }

  lemma ListedAlikeHitTheSame(a: Operation, b: Operation, keying: Keying, row: Row)
    requires ListedAlike(a, b, keying) && Hits(a, row)
    ensures Hits(b, row)
  {
    if keying.ByRecord? {
      OneRecordId(a, b, keying.columns);
      var key :| key in a.exactPredicates && Satisfies(row, key);
      assert key == b.exactPredicates[0] && key in b.exactPredicates;
    } else {
      var v := row.columns[a.primaryKey];
      var i :| 0 <= i < |a.recordIds| && a.recordIds[i] == v;
      assert ShownIds(a)[i] == Shown(v);
      assert Shown(v) in multiset(ShownIds(b));
      var j :| 0 <= j < |ShownIds(b)| && ShownIds(b)[j] == Shown(v);
      assert b.recordIds[j] in b.recordIds;
      ShownInjective(b.recordIds[j], v);
    }
  }

  ghost predicate AllListedAlike(p: seq<Operation>, q: seq<Operation>, schema: string -> Keying) {
    |p| == |q| && forall i :: 0 <= i < |p| ==> p[i].table == q[i].table && ListedAlike(p[i], q[i], schema(p[i].table))
  }

  lemma AllListedAlikeSameEffect(p: seq<Operation>, q: seq<Operation>, schema: string -> Keying)
    requires AllListedAlike(p, q, schema) && AllListedAlike(q, p, schema)
    ensures SameEffect(p, q)
  {
    forall rows: Rows
      ensures Deleted(p, rows) == Deleted(q, rows)
    {
      forall row | row in rows
        ensures HitBy(p, row) <==> HitBy(q, row)
      {
        if HitBy(p, row) { AlikeDeletesNoMore(p, q, schema, row); }
        if HitBy(q, row) { AlikeDeletesNoMore(q, p, schema, row); }
      }
    }
  }

  lemma AlikeDeletesNoMore(p: seq<Operation>, q: seq<Operation>, schema: string -> Keying, row: Row)
    requires AllListedAlike(p, q, schema) && HitBy(p, row)
    ensures HitBy(q, row)
  {
    var i :| 0 <= i < |p| && Hits(p[i], row);
    ListedAlikeHitTheSame(p[i], q[i], schema(p[i].table), row);
  }

  /** No record id of the plan has another reading. */
  ghost predicate ClearlyListed(plan: Plan, schema: string -> Keying)
    requires Keyed(plan, schema)
  {
    forall i :: 0 <= i < |plan.operations| ==> ClearlyListedBy(plan.operations[i], schema(plan.operations[i].table))
  }

  ghost predicate ClearlyListedBy(op: Operation, keying: Keying) {
    KeyedBy(op, keying) && keying.ByRecord? ==> Unambiguous(keying.columns, op.exactPredicates[0])
  }

  lemma ClearlyListedAlike(a: Operation, b: Operation, keying: Keying)
    requires SameIds(a, b) && KeyedBy(a, keying) && KeyedBy(b, keying)
    requires ClearlyListedBy(a, keying) || ClearlyListedBy(b, keying)
    ensures ListedAlike(a, b, keying) && ListedAlike(b, a, keying)
  {
    if keying.ByRecord? {
      OneRecordId(a, b, keying.columns);
      if ClearlyListedBy(a, keying) {
        UnambiguousIdFixesTheKey(keying.columns, a.exactPredicates[0], b.exactPredicates[0]);
      } else {
        UnambiguousIdFixesTheKey(keying.columns, b.exactPredicates[0], a.exactPredicates[0]);
      }
    }
  }

  lemma AllListedAlikeHitAlike(p: seq<Operation>, q: seq<Operation>, schema: string -> Keying)
    requires AllListedAlike(p, q, schema) && AllListedAlike(q, p, schema)
    ensures HitAlike(p, q)
  {
    forall i, row | 0 <= i < |p|
      ensures Hits(p[i], row) <==> Hits(q[i], row)
    {
      if Hits(p[i], row) { ListedAlikeHitTheSame(p[i], q[i], schema(p[i].table), row); }
      if Hits(q[i], row) { ListedAlikeHitTheSame(q[i], p[i], schema(q[i].table), row); }
    }
    assert forall i :: 0 <= i < |p| ==> AlikeOperations(p[i], q[i]);
  }

  /** The same databases refuse them, and all others lose the same rows. */
  ghost predicate RunTheSame(p: seq<Operation>, q: seq<Operation>) {
    forall refs: References, rows: Rows ::
      (Runs(refs, p, rows) <==> Runs(refs, q, rows)) && Erasure(refs, p, rows) == Erasure(refs, q, rows)
  }

  lemma ListedAlikeRunTheSame(p: seq<Operation>, q: seq<Operation>, schema: string -> Keying)
    requires AllListedAlike(p, q, schema) && AllListedAlike(q, p, schema)
    ensures SameEffect(p, q) && RunTheSame(p, q)
  {
    hide Runs, Erasure;
    AllListedAlikeSameEffect(p, q, schema);
    AllListedAlikeHitAlike(p, q, schema);
    forall refs: References, rows: Rows
      ensures Runs(refs, p, rows) <==> Runs(refs, q, rows)
      ensures Erasure(refs, p, rows) == Erasure(refs, q, rows)
    {
      AlikeRunAlike(refs, p, q, rows);
    }
  }

  /** The confirmed digest fixes the effect: the plan that runs deletes what the previewed plan would, from whatever
      the database then holds and whatever its foreign keys, when the record ids of either plan have only one
      reading. */
  lemma SameDigestSameEffect(p: Plan, q: Plan, schema: string -> Keying)
    requires Keyed(p, schema) && Keyed(q, schema) && DigestOf(p) == DigestOf(q)
    requires ClearlyListed(p, schema) || ClearlyListed(q, schema)
    ensures SameEffect(p.operations, q.operations) && RunTheSame(p.operations, q.operations)
  {
    DigestsAgreeIff(p, q);
    forall i | 0 <= i < |p.operations|
      ensures p.operations[i].table == q.operations[i].table
      ensures ListedAlike(p.operations[i], q.operations[i], schema(p.operations[i].table))
      ensures ListedAlike(q.operations[i], p.operations[i], schema(p.operations[i].table))
    {
      assert SameIds(p.operations[i], q.operations[i]);
      ClearlyListedAlike(p.operations[i], q.operations[i], schema(p.operations[i].table));
    }
    ListedAlikeRunTheSame(p.operations, q.operations, schema);
  }

  /** All one-row operations of the plan name keys of the given set. */
  ghost predicate NamesWithin(plan: Plan, keys: set<Row>) {
    forall i :: 0 <= i < |plan.operations| && plan.operations[i].exactPredicates != []
      ==> NamedRow(plan.operations[i]) in keys
  }

  ghost predicate KeysFit(keys: set<Row>, schema: string -> Keying) {
    forall k :: k in keys ==> schema(k.table).ByRecord? && FitsColumns(k.columns, schema(k.table).columns)
  }

  /** Different keys of a table have different record ids. */
  ghost predicate IdsTellApart(keys: set<Row>, schema: string -> Keying) {
    forall k, l :: k in keys && l in keys && SameRecordId(k, l, schema) ==> k == l
  }

  ghost predicate SameRecordId(k: Row, l: Row, schema: string -> Keying) {
    && k.table == l.table && schema(k.table).ByRecord?
    && FitsColumns(k.columns, schema(k.table).columns) && FitsColumns(l.columns, schema(k.table).columns)
    && RecordIdOf(schema(k.table).columns, k.columns) == RecordIdOf(schema(k.table).columns, l.columns)
  }

  ghost predicate DigestFixesEffect(keys: set<Row>, schema: string -> Keying) {
    forall p: Plan, q: Plan ::
      Keyed(p, schema) && Keyed(q, schema) && NamesWithin(p, keys) && NamesWithin(q, keys)
        && DigestOf(p) == DigestOf(q) ==>
        SameEffect(p.operations, q.operations) && RunTheSame(p.operations, q.operations)
  }

  /** Over the keys a database can hold, the digest fixes the effect of every plan, its refusals and what it drags along
      exactly when their record ids tell them apart. */
  lemma DigestFixesEffectIff(keys: set<Row>, schema: string -> Keying)
    requires KeysFit(keys, schema)
    ensures DigestFixesEffect(keys, schema) <==> IdsTellApart(keys, schema)
  {
    if IdsTellApart(keys, schema) {
      forall p: Plan, q: Plan |
        Keyed(p, schema) && Keyed(q, schema) && NamesWithin(p, keys) && NamesWithin(q, keys)
          && DigestOf(p) == DigestOf(q)
        ensures SameEffect(p.operations, q.operations) && RunTheSame(p.operations, q.operations)
      {
        ToldApartSameEffect(p, q, keys, schema);
      }
    }
    if DigestFixesEffect(keys, schema) {
      forall k, l | k in keys && l in keys && SameRecordId(k, l, schema)
        ensures k == l
      {
        FixedEffectTellsApart(keys, schema, k, l);
      }
    }
  }

  lemma ToldApartSameEffect(p: Plan, q: Plan, keys: set<Row>, schema: string -> Keying)
    requires KeysFit(keys, schema) && IdsTellApart(keys, schema) && NamesWithin(p, keys) && NamesWithin(q, keys)
    requires Keyed(p, schema) && Keyed(q, schema) && DigestOf(p) == DigestOf(q)
    ensures SameEffect(p.operations, q.operations) && RunTheSame(p.operations, q.operations)
  {
    DigestsAgreeIff(p, q);
    forall i | 0 <= i < |p.operations|
      ensures p.operations[i].table == q.operations[i].table
      ensures ListedAlike(p.operations[i], q.operations[i], schema(p.operations[i].table))
      ensures ListedAlike(q.operations[i], p.operations[i], schema(p.operations[i].table))
    {
      var a, b := p.operations[i], q.operations[i];
      assert SameIds(a, b);
      if schema(a.table).ByRecord? {
        OneRecordId(a, b, schema(a.table).columns);
        assert NamedRow(a) in keys && NamedRow(b) in keys && SameRecordId(NamedRow(a), NamedRow(b), schema);
        assert NamedRow(a) == NamedRow(b);
      }
    }
    ListedAlikeRunTheSame(p.operations, q.operations, schema);
  }

  /** The operation that names one row by its key. */
  function RowOperation(k: Row, columns: seq<KeyColumn>): Operation
    requires FitsColumns(k.columns, columns)
  {
    Operation("SYS01", k.table, if columns == [] then "" else columns[0].name, [Text(RecordIdOf(columns, k.columns))],
      [k.columns])
  }

  /** Two keys under one record id: one digest, and only the first plan deletes the first key's row. */
  lemma SharedIdSeparates(k: Row, l: Row, columns: seq<KeyColumn>)
    requires k.table == l.table && FitsColumns(k.columns, columns) && FitsColumns(l.columns, columns) && k != l
    requires RecordIdOf(columns, k.columns) == RecordIdOf(columns, l.columns)
    ensures DigestOf(Plan([RowOperation(k, columns)], [])) == DigestOf(Plan([RowOperation(l, columns)], []))
    ensures Deleted([RowOperation(k, columns)], {k}) == {k} && Deleted([RowOperation(l, columns)], {k}) == {}
  {
    var a, b := RowOperation(k, columns), RowOperation(l, columns);
    var p, q := Plan([a], []), Plan([b], []);
    assert a.recordIds == b.recordIds && ListingOf(a) == ListingOf(b);
    assert DigestOf(p).document.listings == [ListingOf(a)] == DigestOf(q).document.listings;
    HitsIsOnly(a, k);
    HitsIsOnly(b, k);
    assert Hits([a][0], k);
    assert k.columns.Keys == l.columns.Keys;
    assert !Hits([b][0], k);
  }

  lemma FixedEffectTellsApart(keys: set<Row>, schema: string -> Keying, k: Row, l: Row)
    requires KeysFit(keys, schema) && DigestFixesEffect(keys, schema) && k in keys && l in keys
    requires SameRecordId(k, l, schema)
    ensures k == l
  {
    var columns := schema(k.table).columns;
    var p, q := Plan([RowOperation(k, columns)], []), Plan([RowOperation(l, columns)], []);
    assert Keyed(p, schema) && Keyed(q, schema) && NamesWithin(p, keys) && NamesWithin(q, keys);
    if k != l { SharedIdSeparates(k, l, columns); }
  }

  lemma HitsIsOnly(op: Operation, row: Row)
    requires |op.exactPredicates| == 1
    ensures Hits(op, row) <==> row.table == op.table && Satisfies(row, op.exactPredicates[0])
  {
    assert op.exactPredicates[0] in op.exactPredicates;
  }

  const DOCUMENT_TAG: seq<KeyColumn> := [KeyColumn("document_id", true), KeyColumn("tag_id", true)]

  function TagKey(document: string, tag: string): Key {
    map["document_id" := Text(document), "tag_id" := Text(tag)]
  }

  lemma TagKeyFits(document: string, tag: string)
    ensures FitsColumns(TagKey(document, tag), DOCUMENT_TAG)
    ensures RecordIdOf(DOCUMENT_TAG, TagKey(document, tag)) == "document_id=" + document + "|" + "tag_id=" + tag
  {
    var key := TagKey(document, tag);
    assert NamesOf(DOCUMENT_TAG) == ["document_id", "tag_id"];
    assert ShownValues(DOCUMENT_TAG, key) == [document, tag];
    assert RecordIds.Rendered(["document_id", "tag_id"][1..], [document, tag][1..]) == RecordIds.Field("tag_id", tag);
  }

  /** The digest function alone does not see predicates: for ids that hold a separator, which no id column of the
      schema does, two one-row plans share a digest and only the first deletes the row. */
  lemma DigestOmitsPredicates() returns (p: Plan, q: Plan, row: Row)
    ensures DigestOf(p) == DigestOf(q)
    ensures Deleted(p.operations, {row}) == {row} && Deleted(q.operations, {row}) == {}
  {
    hide Deleted, DigestOf, RecordIdOf, FitsColumns, RowOperation;
    TagKeyFits("1|tag_id=2", "3");
    TagKeyFits("1", "2|tag_id=3");
    row := Row("document_tag_assignments", TagKey("1|tag_id=2", "3"));
    var other := Row("document_tag_assignments", TagKey("1", "2|tag_id=3"));
    assert "document_id=" + "1|tag_id=2" + "|" + "tag_id=" + "3" == "document_id=1|tag_id=2|tag_id=3";
    assert "document_id=" + "1" + "|" + "tag_id=" + "2|tag_id=3" == "document_id=1|tag_id=2|tag_id=3";
    assert |"3"| != |"2|tag_id=3"|;
    assert row.columns["tag_id"] != other.columns["tag_id"];
    p, q := Plan([RowOperation(row, DOCUMENT_TAG)], []), Plan([RowOperation(other, DOCUMENT_TAG)], []);
    SharedIdSeparates(row, other, DOCUMENT_TAG);
  }

  // ---------------------------------------------------------------- files

  ghost predicate FilesWithin(plan: Plan, stored: set<Path>) {
    Elements(plan.files) <= stored
  }

  ghost predicate NamesDiffer(stored: set<Path>) {
    forall f, g :: f in stored && g in stored && NameOf(f) == NameOf(g) ==> f == g
  }

  ghost predicate DigestFixesFiles(stored: set<Path>) {
    forall p: Plan, q: Plan ::
      FilesWithin(p, stored) && FilesWithin(q, stored) && DigestOf(p) == DigestOf(q) ==>
        Elements(p.files) == Elements(q.files)
  }

  /** Among stored files, the digest fixes which are removed exactly when no two of them share a name. */
  lemma DigestFixesFilesIff(stored: set<Path>)
    ensures DigestFixesFiles(stored) <==> NamesDiffer(stored)
  {
    if NamesDiffer(stored) {
      forall p: Plan, q: Plan | FilesWithin(p, stored) && FilesWithin(q, stored) && DigestOf(p) == DigestOf(q)
        ensures Elements(p.files) == Elements(q.files)
      {
        DigestsAgreeIff(p, q);
        NamedFilesAreShared(p.files, q.files, stored);
        NamedFilesAreShared(q.files, p.files, stored);
      }
    }
    if DigestFixesFiles(stored) {
      forall f, g | f in stored && g in stored && NameOf(f) == NameOf(g)
        ensures f == g
      {
        var p, q := Plan([], [f]), Plan([], [g]);
        assert FileNames(p.files) == [NameOf(f)] == FileNames(q.files);
        assert FilesWithin(p, stored) && FilesWithin(q, stored) && DigestOf(p) == DigestOf(q);
        assert f in Elements(p.files) && Elements(q.files) == {g};
      }
    }
  }

  lemma NamedFilesAreShared(files: seq<Path>, others: seq<Path>, stored: set<Path>)
    requires Elements(files) <= stored && Elements(others) <= stored && NamesDiffer(stored)
    requires multiset(FileNames(files)) == multiset(FileNames(others))
    ensures Elements(files) <= Elements(others)
  {
    forall f | f in files
      ensures f in others
    {
      var i :| 0 <= i < |files| && files[i] == f;
      assert FileNames(files)[i] in multiset(FileNames(others));
      var j :| 0 <= j < |others| && FileNames(others)[j] == NameOf(f);
      assert others[j] in Elements(others) && f in Elements(files);
    }
  }

  lemma {:induction false} NameAfterSlash(directory: string, name: string)
    requires '/' !in name
    ensures NameOf(directory + "/" + name) == name
  {
    var path := directory + "/" + name;
    if name == [] {
      assert path[|path| - 1] == '/';
    } else {
      var init := name[..|name| - 1];
      assert path[..|path| - 1] == directory + "/" + init;
      assert path[|path| - 1] == name[|name| - 1] && name[|name| - 1] in name;
      assert '/' !in init;
      NameAfterSlash(directory, init);
    }
  }

  /** How the storage names an upload: document id, underscore, random digits and extension, in the user's directory. */
  function UploadName(document: string, rest: string): string { document + "_" + rest }

  ghost predicate IsUpload(f: Path, directory: string, document: string) {
    '_' !in document && '/' !in document &&
      exists rest :: '/' !in rest && f == directory + "/" + UploadName(document, rest)
  }

  lemma UploadNamesTheDocument(document: string, rest: string, other: string, otherRest: string)
    requires '_' !in document && '_' !in other && UploadName(document, rest) == UploadName(other, otherRest)
    ensures document == other
  {
    var s := UploadName(document, rest);
    assert s[|document|] == '_' && s[|other|] == '_';
    assert forall i :: 0 <= i < |document| ==> s[i] == document[i] && document[i] in document;
    assert forall i :: 0 <= i < |other| ==> s[i] == other[i] && other[i] in other;
    assert |document| == |other|;
    assert s[..|document|] == document && s[..|other|] == other;
  }

  /** Uploads of one user, one file for each document, have different names, so the digest fixes them. */
  lemma UploadsAreFixed(stored: map<string, Path>, directory: string)
    requires forall document :: document in stored ==> IsUpload(stored[document], directory, document)
    ensures DigestFixesFiles(stored.Values)
  {
    forall f, g | f in stored.Values && g in stored.Values && NameOf(f) == NameOf(g)
      ensures f == g
    {
      var d, e :| d in stored && stored[d] == f && e in stored && stored[e] == g;
      var a :| '/' !in a && f == directory + "/" + UploadName(d, a);
      var b :| '/' !in b && g == directory + "/" + UploadName(e, b);
      NameAfterSlash(directory, UploadName(d, a));
      NameAfterSlash(directory, UploadName(e, b));
      UploadNamesTheDocument(d, a, e, b);
    }
    DigestFixesFilesIff(stored.Values);
  }

  /** Directories are not listed: one digest for two files of the same name below a user's directory.  No upload
      creates such files; the manifest picks them up as orphans of its recursive scan. */
  lemma DigestOmitsDirectories() returns (p: Plan, q: Plan)
    ensures DigestOf(p) == DigestOf(q) && p.files != q.files && |p.files| == |q.files| == 1
  {
    p, q := Plan([], ["/d/u/a/f"]), Plan([], ["/d/u/b/f"]);
    NameAfterSlash("/d/u/a", "f");
    NameAfterSlash("/d/u/b", "f");
    assert "/d/u/a" + "/" + "f" == "/d/u/a/f" && "/d/u/b" + "/" + "f" == "/d/u/b/f";
    assert FileNames(p.files) == ["f"] == FileNames(q.files);
    assert "/d/u/a/f"[5] != "/d/u/b/f"[5];
  }
}
