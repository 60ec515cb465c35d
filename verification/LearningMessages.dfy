/** Learning messages: their validators, and the adapter that turns a render payload into one. */
module LearningMessages {
  import opened Prelude
  import Decimals

  // ---------------------------------------------------------------- render payloads

  datatype Variant = Concept | Hint | Question | Feedback | Source

  datatype CitationItem = CitationItem(text: string, spanId: string)

  datatype RenderBlock =
    | Markdown(id: string, source: string)
    | Card(id: string, variant: Variant, title: string, body: string)
    | Citations(id: string, items: seq<CitationItem>)

  predicate InRange(s: string, most: nat) {
    1 <= |s| <= most
  }

  predicate IsIdChar(c: char) {
    'A' <= c <= 'Z' || 'a' <= c <= 'z' || '0' <= c <= '9' || c == '_' || c == '-'
  }

  predicate IsId(s: string, most: nat) {
    InRange(s, most) && forall i :: 0 <= i < |s| ==> IsIdChar(s[i])
  }

  predicate RenderBlockValid(b: RenderBlock) {
    && IsId(b.id, 64)
    && match b
       case Markdown(_, source) => InRange(source, 20_000)
       case Card(_, _, title, body) => InRange(title, 200) && InRange(body, 10_000)
       case Citations(_, items) => 1 <= |items| <= 20 && forall i :: 0 <= i < |items| ==> InRange(items[i].text, 300)
  }

  predicate PayloadValid(blocks: seq<RenderBlock>) {
    && 1 <= |blocks| <= 32
    && (forall i :: 0 <= i < |blocks| ==> RenderBlockValid(blocks[i]))
    && forall i, j :: 0 <= i < j < |blocks| ==> blocks[i].id != blocks[j].id
  }

  // ---------------------------------------------------------------- messages

  datatype Ref = Ref(system: string, entity: string, id: string, ready: bool)

  datatype Metadata = Metadata(role: string, refs: seq<Ref>, availability: string, reasonCodes: seq<string>)

  datatype Content =
    | Explanation(caption: Option<string>, body: string)
    | Knowledge(title: string, body: string, status: string)
    | LearningActivity(prompt: string, responseMode: string)
    | FeedbackNote(basis: string, heading: string, body: string, correctness: Option<string>)
    | Evidence(excerpt: string, sourceLabel: string, citationLabel: Option<string>)

  /** A capability offered in a block; the adapter never makes one. */
  type Capability = string

  datatype Block = Block(id: string, content: Content, metadata: Metadata, interactions: seq<Capability>)

  datatype Timestamp = Timestamp(instant: int, zoned: bool)

  datatype Role = Learner | Assistant | SystemNotice

  datatype Message = Message(
    id: string, revision: nat, conversation: string, sequence: int, role: Role, timestamp: Timestamp, content: string,
    blocks: seq<Block>, source: string)

  function Lower(c: char): char {
    if 'A' <= c <= 'Z' then (c as int + 32) as char else c
  }

  predicate SameWord(a: string, b: string) {
    |a| == |b| && forall i :: 0 <= i < |a| ==> Lower(a[i]) == Lower(b[i])
  }

  predicate HasRef(m: Metadata, system: string, entity: string) {
    exists i :: 0 <= i < |m.refs| && m.refs[i].system == system && SameWord(m.refs[i].entity, entity) && m.refs[i].ready
  }

  predicate ContentValid(c: Content, m: Metadata) {
    match c
    case Explanation(caption, body) => (caption.Some? ==> |caption.value| <= 200) && InRange(body, 20_000)
    case Knowledge(title, body, status) =>
      InRange(title, 200) && InRange(body, 10_000)
        && (status == "CANONICAL_REF" ==> HasRef(m, "SYS01", "KnowledgeUnit"))
    case LearningActivity(prompt, _) =>
      && InRange(prompt, 20_000)
      && (m.availability == "READY" ==> HasRef(m, "SYS06", "LearningActivity") && HasRef(m, "SYS05", "TeachingAction"))
    case FeedbackNote(basis, heading, body, correctness) =>
      && InRange(heading, 200) && InRange(body, 10_000)
      && (basis == "ASSESSMENT_RESULT" ==> HasRef(m, "SYS04", "AssessmentResult"))
      && (basis == "NON_ASSESSMENT_EXECUTION_FEEDBACK" ==> correctness.None?)
    case Evidence(excerpt, source, citation) =>
      && InRange(excerpt, 2_000) && InRange(source, 300) && (citation.Some? ==> |citation.value| <= 300)
      && (m.availability == "READY" ==> HasRef(m, "SYS01", "SourceSpan") && HasRef(m, "SYS02", "EvidenceBundle"))
  }

  predicate BlockValid(b: Block) {
    && IsId(b.id, 100) && ContentValid(b.content, b.metadata) && |b.interactions| <= 16
    && InRange(b.metadata.role, 120) && |b.metadata.refs| <= 32
  }

  function Ids(blocks: seq<Block>): seq<string> {
    seq(|blocks|, i requires 0 <= i < |blocks| => blocks[i].id)
  }

  ghost predicate MessageValid(m: Message) {
    && InRange(m.id, 200) && m.revision >= 1 && InRange(m.conversation, 200) && m.sequence >= 1 && m.timestamp.zoned
    && InRange(m.content, 20_000) && |m.blocks| <= 32
    && (forall i :: 0 <= i < |m.blocks| ==> BlockValid(m.blocks[i]))
    && Distinct(Ids(m.blocks))
    && (m.role == Assistant && m.source == "CANONICAL" ==> m.blocks != [])
  }

  // ---------------------------------------------------------------- the adapter

  /** The refs of the context: activity and transcript turn, and action and evidence bundle if there are any. */
  datatype Context = Context(activity: Ref, turn: Ref, action: Option<Ref>, bundle: Option<Ref>)

  function ContextRefs(c: Context): seq<Ref> {
    [c.activity, c.turn] + (if c.action.Some? then [c.action.value] else []) +
      (if c.bundle.Some? then [c.bundle.value] else [])
  }

  const PARTIAL: string := "RENDER_PAYLOAD_OWNER_REFS_PARTIAL"

  function MetadataFor(c: Context, kind: string): Metadata {
    Metadata("render_payload_" + kind, ContextRefs(c), "LEGACY_COMPAT", [PARTIAL])
  }

  function CitationId(id: string, k: nat): string {
    id + "-" + Decimals.Numeral(k + 1)
  }

  function CardContent(variant: Variant, title: string, body: string): Content {
    match variant
    case Concept => Knowledge(title, body, "PRESENTATION_ONLY")
    case Question => LearningActivity("### " + title + "\n\n" + body, "NONE")
    case Feedback => FeedbackNote("NON_ASSESSMENT_EXECUTION_FEEDBACK", title, body, None)
    case Source => Evidence(body, title, None)
    case Hint => Explanation(Some(title), body)
  }

  function Cited(c: Context, id: string, items: seq<CitationItem>, k: nat): Block
    requires k < |items|
  {
    Block(CitationId(id, k), Evidence(items[k].text, items[k].text, Some(items[k].text)),
      MetadataFor(c, "citations"), [])
  }

  function Expand(c: Context, b: RenderBlock): seq<Block> {
    match b
    case Markdown(id, source) => [Block(id, Explanation(None, source), MetadataFor(c, "markdown"), [])]
    case Card(id, variant, title, body) => [Block(id, CardContent(variant, title, body), MetadataFor(c, "card"), [])]
    case Citations(id, items) => seq(|items|, k requires 0 <= k < |items| => Cited(c, id, items, k))
  }

  /** The expansions of the first n blocks, in order. */
  function ExpandAll(c: Context, blocks: seq<RenderBlock>, n: nat): seq<Block>
    requires n <= |blocks|
  {
    if n == 0 then [] else ExpandAll(c, blocks, n - 1) + Expand(c, blocks[n - 1])
  }

  // ---------------------------------------------------------------- generated ids

  lemma {:induction false} LastHyphenSplits(a: string, m: string, b: string, n: string)
    requires '-' !in m && '-' !in n && a + "-" + m == b + "-" + n
    ensures a == b && m == n
  {
    var s, t := a + "-" + m, b + "-" + n;
    assert s[|s| - 1] == if m == "" then '-' else m[|m| - 1];
    assert t[|t| - 1] == if n == "" then '-' else n[|n| - 1];
    if m == "" || n == "" {
      assert m == n == "";
      assert s[..|s| - 1] == a && t[..|t| - 1] == b;
    } else {
      var m', n' := m[..|m| - 1], n[..|n| - 1];
      assert s[..|s| - 1] == a + "-" + m' && t[..|t| - 1] == b + "-" + n';
      assert m == m' + [m[|m| - 1]] && n == n' + [n[|n| - 1]];
      LastHyphenSplits(a, m', b, n');
    }
  }

  /** Two citation items get the same id only if they are the same item: numerals hold no hyphen. */
  lemma CitationIdsNeverCollide(a: string, i: nat, b: string, j: nat)
    requires CitationId(a, i) == CitationId(b, j)
    ensures a == b && i == j
  {
    Decimals.NumeralHasOnlyDigits(i + 1);
    Decimals.NumeralHasOnlyDigits(j + 1);
    LastHyphenSplits(a, Decimals.Numeral(i + 1), b, Decimals.Numeral(j + 1));
    Decimals.NumeralInjective(i + 1, j + 1);
  }

  /** A citation item's id is that of some other, non-citation block. */
  predicate Collides(blocks: seq<RenderBlock>, p: nat, k: nat, q: nat)
    requires p < |blocks| && q < |blocks|
  {
    blocks[p].Citations? && k < |blocks[p].items| && !blocks[q].Citations?
      && CitationId(blocks[p].id, k) == blocks[q].id
  }

  ghost predicate NoCollision(blocks: seq<RenderBlock>, n: nat)
    requires n <= |blocks|
  {
    forall p: nat, k: nat, q: nat :: p < n && q < n ==> !Collides(blocks, p, k, q)
  }

  ghost predicate Produces(b: RenderBlock, id: string) {
    if b.Citations? then exists k: nat :: k < |b.items| && CitationId(b.id, k) == id else b.id == id
  }

  lemma ExpansionIds(c: Context, b: RenderBlock)
    ensures forall id :: id in Ids(Expand(c, b)) <==> Produces(b, id)
    ensures Distinct(Ids(Expand(c, b)))
  {
    var ids := Ids(Expand(c, b));
    if b.Citations? {
      assert |ids| == |b.items|;
      forall id | Produces(b, id)
        ensures id in ids
      {
        var k: nat :| k < |b.items| && CitationId(b.id, k) == id;
        assert ids[k] == id;
      }
      forall i, j | 0 <= i < j < |ids|
        ensures ids[i] != ids[j]
      {
        if ids[i] == ids[j] { CitationIdsNeverCollide(b.id, i, b.id, j); }
      }
    } else {
      assert ids == [b.id];
    }
  }

  ghost predicate ProducedBefore(blocks: seq<RenderBlock>, n: nat, id: string)
    requires n <= |blocks|
  {
    exists p: nat :: p < n && Produces(blocks[p], id)
  }

  lemma {:induction false} AllIds(c: Context, blocks: seq<RenderBlock>, n: nat)
    requires n <= |blocks|
    ensures forall id :: id in Ids(ExpandAll(c, blocks, n)) <==> ProducedBefore(blocks, n, id)
  {
    hide Expand, Produces;
    if n > 0 {
      AllIds(c, blocks, n - 1);
      ExpansionIds(c, blocks[n - 1]);
      IdsConcatenate(ExpandAll(c, blocks, n - 1), Expand(c, blocks[n - 1]));
    }
  }

  lemma IdsConcatenate(a: seq<Block>, b: seq<Block>)
    ensures Ids(a + b) == Ids(a) + Ids(b)
  {}

  /** Blocks with different ids share a produced id only across the two kinds. */
  lemma SharedIdsCollide(blocks: seq<RenderBlock>, p: nat, q: nat, id: string)
    requires p < |blocks| && q < |blocks| && blocks[p].id != blocks[q].id && Produces(blocks[p], id)
      && Produces(blocks[q], id)
    ensures exists k: nat :: Collides(blocks, p, k, q) || Collides(blocks, q, k, p)
  {
    if blocks[p].Citations? {
      var k: nat :| k < |blocks[p].items| && CitationId(blocks[p].id, k) == id;
      if blocks[q].Citations? {
        var l: nat :| l < |blocks[q].items| && CitationId(blocks[q].id, l) == id;
        CitationIdsNeverCollide(blocks[p].id, k, blocks[q].id, l);
        assert false;
      }
      assert Collides(blocks, p, k, q);
    } else {
      assert blocks[q].Citations?;
      var k: nat :| k < |blocks[q].items| && CitationId(blocks[q].id, k) == id;
      assert Collides(blocks, q, k, p);
    }
  }

  lemma DistinctConcatenation(a: seq<string>, b: seq<string>)
    ensures Distinct(a + b) <==> Distinct(a) && Distinct(b) && forall x :: x in a ==> x !in b
  {
    var s := a + b;
    assert forall i :: 0 <= i < |a| ==> s[i] == a[i];
    assert forall i :: 0 <= i < |b| ==> s[|a| + i] == b[i];
    if Distinct(s) {
      forall i, j | 0 <= i < j < |b|
        ensures b[i] != b[j]
      {
        assert s[|a| + i] != s[|a| + j];
      }
      forall i, j | 0 <= i < |a| && 0 <= j < |b|
        ensures a[i] != b[j]
      {
        assert s[i] != s[|a| + j];
      }
    } else if Distinct(a) && Distinct(b) {
      var i, j :| 0 <= i < j < |s| && s[i] == s[j];
      assert i < |a| <= j;
      assert a[i] == b[j - |a|] && a[i] in a;
    }
  }

  /** The expanded ids are distinct exactly when no citation item takes the id of a non-citation block. */
  lemma {:induction false} DistinctIffNoCollision(c: Context, blocks: seq<RenderBlock>, n: nat)
    requires n <= |blocks| && forall i, j :: 0 <= i < j < |blocks| ==> blocks[i].id != blocks[j].id
    ensures Distinct(Ids(ExpandAll(c, blocks, n))) <==> NoCollision(blocks, n)
  {
    if n > 0 {
      DistinctIffNoCollision(c, blocks, n - 1);
      OneMoreBlock(c, blocks, n);
    }
  }

  lemma OneMoreBlock(c: Context, blocks: seq<RenderBlock>, n: nat)
    requires 0 < n <= |blocks| && forall i, j :: 0 <= i < j < |blocks| ==> blocks[i].id != blocks[j].id
    requires Distinct(Ids(ExpandAll(c, blocks, n - 1))) <==> NoCollision(blocks, n - 1)
    ensures Distinct(Ids(ExpandAll(c, blocks, n))) <==> NoCollision(blocks, n)
  {
    hide Expand, Produces, Distinct, NoCollision, Ids;
    var before, last := Ids(ExpandAll(c, blocks, n - 1)), Ids(Expand(c, blocks[n - 1]));
    IdsConcatenate(ExpandAll(c, blocks, n - 1), Expand(c, blocks[n - 1]));
    DistinctConcatenation(before, last);
    AllIds(c, blocks, n - 1);
    ExpansionIds(c, blocks[n - 1]);
    NewCollisions(blocks, n, before, last);
  }

  lemma NewCollisions(blocks: seq<RenderBlock>, n: nat, before: seq<string>, last: seq<string>)
    requires 0 < n <= |blocks| && forall i, j :: 0 <= i < j < |blocks| ==> blocks[i].id != blocks[j].id
    requires forall id :: id in before <==> ProducedBefore(blocks, n - 1, id)
    requires forall id :: id in last <==> Produces(blocks[n - 1], id)
    ensures NoCollision(blocks, n) <==> NoCollision(blocks, n - 1) && forall id :: id in before ==> id !in last
  {
    if id :| id in before && id in last {
      SharedIdIsACollision(blocks, n, id);
    }
    if !NoCollision(blocks, n) {
      var p: nat, k: nat, q: nat :| p < n && q < n && Collides(blocks, p, k, q);
      if p == n - 1 || q == n - 1 {
        CollisionIsAShared(blocks, n, p, k, q);
        assert blocks[q].id in before && blocks[q].id in last;
      } else {
        assert !NoCollision(blocks, n - 1);
      }
    }
  }

  lemma SharedIdIsACollision(blocks: seq<RenderBlock>, n: nat, id: string)
    requires 0 < n <= |blocks| && forall i, j :: 0 <= i < j < |blocks| ==> blocks[i].id != blocks[j].id
    requires ProducedBefore(blocks, n - 1, id) && Produces(blocks[n - 1], id)
    ensures !NoCollision(blocks, n)
  {
    var p: nat :| p < n - 1 && Produces(blocks[p], id);
    SharedIdsCollide(blocks, p, n - 1, id);
    var k: nat :| Collides(blocks, p, k, n - 1) || Collides(blocks, n - 1, k, p);
  }

  lemma CollisionIsAShared(blocks: seq<RenderBlock>, n: nat, p: nat, k: nat, q: nat)
    requires 0 < n <= |blocks| && p < n && q < n && (p == n - 1 || q == n - 1) && Collides(blocks, p, k, q)
    ensures ProducedBefore(blocks, n - 1, blocks[q].id) && Produces(blocks[n - 1], blocks[q].id)
  {
    var id := blocks[q].id;
    assert Produces(blocks[p], id) && Produces(blocks[q], id) && p != q;
  }

  // ---------------------------------------------------------------- exactly when the adapter succeeds

  predicate TooLong(b: RenderBlock) {
    b.Card? && b.variant.Source? && |b.body| > 2_000
  }

  lemma CitationIdFits(id: string, k: nat)
    requires IsId(id, 64) && k < 20
    ensures IsId(CitationId(id, k), 100)
  {
    var numeral := Decimals.Numeral(k + 1);
    Decimals.NumeralHasOnlyDigits(k + 1);
    assert |numeral| <= 2;
    var all := CitationId(id, k);
    forall i | 0 <= i < |all|
      ensures IsIdChar(all[i])
    {
      if i > |id| { assert all[i] == numeral[i - |id| - 1]; }
    }
  }

  ghost predicate AllValid(blocks: seq<Block>) {
    forall i :: 0 <= i < |blocks| ==> BlockValid(blocks[i])
  }

  /** A valid render block becomes valid message blocks unless it is a source card longer than an excerpt may be. */
  lemma ExpansionValidIff(c: Context, b: RenderBlock)
    requires RenderBlockValid(b)
    ensures AllValid(Expand(c, b)) <==> !TooLong(b)
  {
    if b.Citations? {
      forall k | 0 <= k < |b.items|
        ensures BlockValid(Cited(c, b.id, b.items, k))
      {
        CitationIdFits(b.id, k);
      }
    } else {
      var block := Expand(c, b)[0];
      assert BlockValid(block) <==> !TooLong(b);
      assert AllValid(Expand(c, b)) <==> BlockValid(block);
    }
  }

  lemma {:induction false} AllExpansionsValidIff(c: Context, blocks: seq<RenderBlock>, n: nat)
    requires n <= |blocks| && forall i :: 0 <= i < |blocks| ==> RenderBlockValid(blocks[i])
    ensures AllValid(ExpandAll(c, blocks, n)) <==> forall i :: 0 <= i < n ==> !TooLong(blocks[i])
  {
    hide Expand, BlockValid;
    if n > 0 {
      hide AllValid;
      AllExpansionsValidIff(c, blocks, n - 1);
      ExpansionValidIff(c, blocks[n - 1]);
      ValidConcatenation(ExpandAll(c, blocks, n - 1), Expand(c, blocks[n - 1]));
    }
  }

  lemma ValidConcatenation(a: seq<Block>, b: seq<Block>)
    ensures AllValid(a + b) <==> AllValid(a) && AllValid(b)
  {
    assert forall i :: 0 <= i < |a| ==> (a + b)[i] == a[i];
    forall i | 0 <= i < |b|
      ensures b[i] == (a + b)[|a| + i]
    {}
  }

  /** How many blocks the message gets: one per block, and one per citation item. */
  function Count(blocks: seq<RenderBlock>, n: nat): nat
    requires n <= |blocks|
  {
    if n == 0 then 0
    else
      var b := blocks[n - 1];
      Count(blocks, n - 1) + if b.Citations? then |b.items| else 1
  }

  lemma {:induction false} ExpansionCount(c: Context, blocks: seq<RenderBlock>, n: nat)
    requires n <= |blocks|
    ensures |ExpandAll(c, blocks, n)| == Count(blocks, n)
    ensures forall i :: 0 <= i < |ExpandAll(c, blocks, n)| ==> ExpandAll(c, blocks, n)[i].interactions == []
  {
    if n > 0 { ExpansionCount(c, blocks, n - 1); }
  }

  /** A block's expansion comes where the block was: after those of earlier blocks, before those of later ones. */
  lemma {:induction false} OrderIsKept(c: Context, blocks: seq<RenderBlock>, p: nat, n: nat)
    requires p < n <= |blocks|
    ensures var at := Count(blocks, p); var all, own := ExpandAll(c, blocks, n), Expand(c, blocks[p]);
      at + |own| <= |all| && all[at..at + |own|] == own
    decreases n
  {
    hide Expand;
    ExpansionCount(c, blocks, p);
    var at, own, last := Count(blocks, p), Expand(c, blocks[p]), Expand(c, blocks[n - 1]);
    var all, before := ExpandAll(c, blocks, n), ExpandAll(c, blocks, n - 1);
    if p < n - 1 {
      OrderIsKept(c, blocks, p, n - 1);
      assert all[..|before|] == before;
      assert all[at..at + |own|] == before[at..at + |own|];
    } else {
      assert all[at..at + |own|] == own;
    }
  }

  datatype ValidationError = InvalidBlock(id: string) | InvalidMessage

  datatype Envelope = Envelope(
    id: string, conversation: string, sequence: int, role: Role, timestamp: Timestamp, content: string)

  predicate EnvelopeValid(e: Envelope) {
    InRange(e.id, 200) && InRange(e.conversation, 200) && e.sequence >= 1 && e.timestamp.zoned
      && InRange(e.content, 20_000)
  }

  function MessageFrom(e: Envelope, blocks: seq<Block>): Message {
    Message(e.id, 1, e.conversation, e.sequence, e.role, e.timestamp, e.content, blocks, "RENDER_PAYLOAD_V1_ADAPTER")
  }

  /** What the caller could check beforehand. */
  ghost predicate Adaptable(e: Envelope, blocks: seq<RenderBlock>) {
    && EnvelopeValid(e) && Count(blocks, |blocks|) <= 32 && NoCollision(blocks, |blocks|)
    && forall i :: 0 <= i < |blocks| ==> !TooLong(blocks[i])
  }

  lemma MessageValidIffAdaptable(c: Context, e: Envelope, blocks: seq<RenderBlock>)
    requires PayloadValid(blocks)
    ensures MessageValid(MessageFrom(e, ExpandAll(c, blocks, |blocks|))) <==> Adaptable(e, blocks)
  {
    DistinctIffNoCollision(c, blocks, |blocks|);
    AllExpansionsValidIff(c, blocks, |blocks|);
    ExpansionCount(c, blocks, |blocks|);
  }

  /** A valid payload can be out of the adapter's reach: a Markdown block may already have the id generated for a
      citation item. */
  lemma ValidPayloadMayCollide(e: Envelope) returns (payload: seq<RenderBlock>)
    ensures PayloadValid(payload) && Count(payload, |payload|) <= 32 && !Adaptable(e, payload)
    ensures forall i :: 0 <= i < |payload| ==> !TooLong(payload[i])
  {
    payload := [Citations("a", [CitationItem("label", "span")]), Markdown("a-1", "text")];
    assert Decimals.Numeral(1) == "1" && "a" + "-" + "1" == "a-1";
    assert Count(payload, 1) == Count(payload, 0) + 1;
    assert Collides(payload, 0, 0, 1);
  }

  /** The refs of the context, those that are there, in this order. */
  ghost predicate RefersTo(m: Metadata, c: Context) {
    && [c.activity, c.turn] <= m.refs
    && (c.action.None? && c.bundle.None? ==> |m.refs| == 2)
    && (c.action.Some? && c.bundle.None? ==> m.refs[2..] == [c.action.value])
    && (c.action.None? && c.bundle.Some? ==> m.refs[2..] == [c.bundle.value])
    && (c.action.Some? && c.bundle.Some? ==> m.refs[2..] == [c.action.value, c.bundle.value])
    && m.availability == "LEGACY_COMPAT" && m.reasonCodes == ["RENDER_PAYLOAD_OWNER_REFS_PARTIAL"]
  }

  /** The block at a position carries what the render block shows: text unabridged, titles and labels in their
      fields. */
  ghost predicate Carries(b: RenderBlock, block: Block) {
    && block.id == b.id
    && match b
       case Markdown(_, source) =>
         block.content == Explanation(None, source) && block.metadata.role == "render_payload_markdown"
       case Card(_, variant, title, body) =>
         && block.metadata.role == "render_payload_card"
         && (match variant
             case Concept => block.content == Knowledge(title, body, "PRESENTATION_ONLY")
             case Question => block.content == LearningActivity("### " + title + "\n\n" + body, "NONE")
             case Feedback =>
               block.content == FeedbackNote("NON_ASSESSMENT_EXECUTION_FEEDBACK", title, body, None)
             case Source => block.content == Evidence(body, title, None)
             case Hint => block.content == Explanation(Some(title), body))
       case Citations(_, _) => false
  }

  /** The blocks from a position on are the items of a citation block, one each. */
  ghost predicate Cites(id: string, items: seq<CitationItem>, blocks: seq<Block>, at: nat) {
    && at + |items| <= |blocks|
    && forall k :: 0 <= k < |items| ==>
      var block := blocks[at + k];
      && block.id == id + "-" + Decimals.Numeral(k + 1) && block.metadata.role == "render_payload_citations"
      && block.content == Evidence(items[k].text, items[k].text, Some(items[k].text))
  }

  /** Where each render block's content stands in the message. */
  ghost predicate ShowsPayload(c: Context, payload: seq<RenderBlock>, blocks: seq<Block>) {
    && |blocks| == Count(payload, |payload|)
    && (forall i :: 0 <= i < |blocks| ==> RefersTo(blocks[i].metadata, c) && blocks[i].interactions == [])
    && forall p :: 0 <= p < |payload| ==> ShowsAt(payload[p], blocks, Count(payload, p))
  }

  ghost predicate ShowsAt(b: RenderBlock, blocks: seq<Block>, at: nat) {
    if b.Citations? then Cites(b.id, b.items, blocks, at) else at < |blocks| && Carries(b, blocks[at])
  }

  lemma {:induction false} ExpansionRefs(c: Context, blocks: seq<RenderBlock>, n: nat)
    requires n <= |blocks|
    ensures forall i :: 0 <= i < |ExpandAll(c, blocks, n)| ==> RefersTo(ExpandAll(c, blocks, n)[i].metadata, c)
  {
    if n > 0 {
      ExpansionRefs(c, blocks, n - 1);
      OwnRefs(c, blocks[n - 1]);
      hide Expand, RefersTo;
    }
  }

  lemma OwnRefs(c: Context, b: RenderBlock)
    ensures forall i :: 0 <= i < |Expand(c, b)| ==> RefersTo(Expand(c, b)[i].metadata, c)
  {
    forall kind
      ensures RefersTo(MetadataFor(c, kind), c)
    {
      assert ContextRefs(c)[..2] == [c.activity, c.turn];
    }
  }

  lemma OwnContent(c: Context, b: RenderBlock, all: seq<Block>, at: nat)
    requires at + |Expand(c, b)| <= |all| && all[at..at + |Expand(c, b)|] == Expand(c, b)
    ensures ShowsAt(b, all, at)
  {
    var own := Expand(c, b);
    assert forall k :: 0 <= k < |own| ==> own[k] == all[at + k];
  }

  /** The expansions show every render block's content at its place. */
  lemma ExpansionShowsPayload(c: Context, payload: seq<RenderBlock>)
    ensures ShowsPayload(c, payload, ExpandAll(c, payload, |payload|))
  {
    hide Expand, RefersTo, ShowsAt;
    ExpansionCount(c, payload, |payload|);
    ExpansionRefs(c, payload, |payload|);
    forall p | 0 <= p < |payload|
      ensures ShowsAt(payload[p], ExpandAll(c, payload, |payload|), Count(payload, p))
    {
      OrderIsKept(c, payload, p, |payload|);
      OwnContent(c, payload[p], ExpandAll(c, payload, |payload|), Count(payload, p));
    }
  }

  /** The first overlong source card, if any, is the block that fails. */
  ghost predicate FailsAt(payload: seq<RenderBlock>, p: nat) {
    && p < |payload| && payload[p].Card? && payload[p].variant.Source? && |payload[p].body| > 2_000
    && forall q :: 0 <= q < p ==> !(payload[q].Card? && payload[q].variant.Source? && |payload[q].body| > 2_000)
  }

  /** Adapts a render payload.  It succeeds exactly when the payload is adaptable, and then the message is valid,
      offers no capability, keeps the envelope, and shows every render block's content in its place. */
  method AdaptRenderPayload(c: Context, e: Envelope, payload: seq<RenderBlock>)
    returns (r: Result<Message, ValidationError>)
    requires PayloadValid(payload)
    ensures r.Ok? <==> Adaptable(e, payload)
    ensures r.Ok? ==> r.value == MessageFrom(e, ExpandAll(c, payload, |payload|)) && MessageValid(r.value)
    ensures r.Ok? ==> ShowsPayload(c, payload, r.value.blocks)
    ensures r.Ok? ==>
      && r.value.id == e.id && r.value.conversation == e.conversation && r.value.sequence == e.sequence
      && r.value.role == e.role && r.value.timestamp == e.timestamp && r.value.content == e.content
      && r.value.revision == 1 && r.value.source == "RENDER_PAYLOAD_V1_ADAPTER"
    ensures forall id :: r == Err(InvalidBlock(id)) <==>
      exists p: nat :: FailsAt(payload, p) && payload[p].id == id
  {
    hide ShowsPayload, PayloadValid, FailsAt;
    var expanded := ExpandPayload(c, payload);
    FailsAtTooLong(payload);
    if expanded.Err? {
      forall p: nat, q: nat | FailsAt(payload, p) && FailsAt(payload, q)
        ensures p == q
      {
        OnlyOneFails(payload, p, q);
      }
      return Err(expanded.error);
    }
    var blocks := expanded.value;
    MessageValidIffAdaptable(c, e, payload);
    ExpansionCount(c, payload, |payload|);
    ExpansionShowsPayload(c, payload);
    hide MessageValid, AllValid, Adaptable, ExpandAll;
    var unique := AllDifferent(Ids(blocks));
    ValidatorsAgree(c, e, payload);
    if !EnvelopeValid(e) || |blocks| > 32 || !unique {
      return Err(InvalidMessage);
    }
    return Ok(MessageFrom(e, blocks));
  }

  /** What is left to check once every block is valid. */
  lemma ValidatorsAgree(c: Context, e: Envelope, payload: seq<RenderBlock>)
    requires PayloadValid(payload) && forall q :: 0 <= q < |payload| ==> !TooLong(payload[q])
    ensures var blocks := ExpandAll(c, payload, |payload|);
      Adaptable(e, payload) <==> EnvelopeValid(e) && |blocks| <= 32 && Distinct(Ids(blocks))
  {
    DistinctIffNoCollision(c, payload, |payload|);
    ExpansionCount(c, payload, |payload|);
  }

  /** The loop over the render blocks. */
  method ExpandPayload(c: Context, payload: seq<RenderBlock>) returns (r: Result<seq<Block>, ValidationError>)
    requires PayloadValid(payload)
    ensures r.Ok? <==> forall q :: 0 <= q < |payload| ==> !TooLong(payload[q])
    ensures r.Ok? ==> r.value == ExpandAll(c, payload, |payload|)
    ensures r.Err? ==> exists p: nat :: FailsAt(payload, p) && r.error == InvalidBlock(payload[p].id)
  {
    var blocks: seq<Block> := [];
    for n := 0 to |payload|
      invariant blocks == ExpandAll(c, payload, n)
      invariant forall q :: 0 <= q < n ==> !TooLong(payload[q])
    {
      var b := payload[n];
      if TooLong(b) {
        assert FailsAt(payload, n);
        return Err(InvalidBlock(b.id));
      }
      if b.Citations? {
        var items := CiteItems(c, b.id, b.items);
        blocks := blocks + items;
      } else if b.Markdown? {
        blocks := blocks + [Block(b.id, Explanation(None, b.source), MetadataFor(c, "markdown"), [])];
      } else {
        blocks := blocks + [Block(b.id, CardContent(b.variant, b.title, b.body), MetadataFor(c, "card"), [])];
      }
    }
    return Ok(blocks);
  }

  lemma OnlyOneFails(payload: seq<RenderBlock>, p: nat, q: nat)
    requires FailsAt(payload, p) && FailsAt(payload, q)
    ensures p == q
  {}

  lemma FailsAtTooLong(payload: seq<RenderBlock>)
    ensures (exists p: nat :: FailsAt(payload, p)) ==> exists q :: 0 <= q < |payload| && TooLong(payload[q])
  {
    if p: nat :| FailsAt(payload, p) { assert TooLong(payload[p]); }
  }

  method CiteItems(c: Context, id: string, items: seq<CitationItem>) returns (blocks: seq<Block>)
    ensures blocks == Expand(c, Citations(id, items))
  {
    blocks := [];
    for k := 0 to |items|
      invariant |blocks| == k && forall j :: 0 <= j < k ==> blocks[j] == Cited(c, id, items, j)
    {
      blocks := blocks + [
        Block(CitationId(id, k), Evidence(items[k].text, items[k].text, Some(items[k].text)),
          MetadataFor(c, "citations"), [])];
    }
  }

  /** The validator's `len(ids) == len(set(ids))`. */
  method AllDifferent(ids: seq<string>) returns (yes: bool)
    ensures yes <==> Distinct(ids)
  {
    var seen: set<string> := {};
    for i := 0 to |ids|
      invariant forall x :: x in seen <==> x in ids[..i]
      invariant |seen| <= i && (|seen| == i <==> Distinct(ids[..i]))
    {
      DistinctSnoc(ids[..i], ids[i]);
      assert ids[..i + 1] == ids[..i] + [ids[i]];
      seen := seen + {ids[i]};
    }
    assert ids[..|ids|] == ids;
    return |seen| == |ids|;
  }

  lemma DistinctSnoc(s: seq<string>, x: string)
    ensures Distinct(s + [x]) <==> Distinct(s) && x !in s
  {
    DistinctConcatenation(s, [x]);
  }
}
