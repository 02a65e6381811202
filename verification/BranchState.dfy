/** The records of shared/drop/branch-state.ts and shared/drop/branch.ts, event identity, and the
    text an event's operations produce. */
module BranchState {
  import opened Wrappers
  import opened JsText
  import opened JsonNumber
  import opened Json
  import opened JsonCanonical
  import opened JsonEdit
  import TextDiff
  import Utf8

  datatype Code =
    | Forbidden | BranchNotActive | SourceHashRequired | StaleSource | IdempotencyKeyReused
    | RuntimeFactSequenceExhausted | InvalidCommand | BranchInitializationConflict
    | RoutingGenerationMismatch | RoutingVersionUnsupported | DiffPredecessorMismatch
    | DiffEventIdReused | DiffSequenceExhausted | StateCorrupt
    | SnapshotNotFound | SnapshotVersionMismatch | BranchNotFound | BranchInitializationPending | StateUnavailable

  datatype Result<+T> = Ok(value: T) | Err(code: Code)

  const MAX_SAFE: int := 9007199254740991

  predicate IsSafe(n: int) { -MAX_SAFE <= n <= MAX_SAFE }

  // Events ------------------------------------------------------------------------------

  /** `data` stands for the base64 payload by the text it encodes. */
  datatype NativeOp = NativeOp(op: TextDiff.DiffOp, data: Text, range: Option<TextDiff.Range>)

  /** A wire record; `insert` is its legacy type. */
  datatype WireOp = WireOp(
    insert: Option<bool>, start: Option<int>, end: Option<int>, text: Option<Text>, native: Option<NativeOp>)

  /** Metadata is a JSON object, carried whole. */
  datatype Event = Event(
    eventId: Text, seq_: int, dropId: Text, sourceClientId: Text, createdAt: int,
    snapshotId: Option<int>, ops: seq<WireOp>, metadata: Option<Json>)

  const FOLLOWS := U("followsSeq")

  /** The predecessor an event names, if it does. */
  function FollowsSeq(e: Event): Option<int> {
    var m := if e.metadata.Some? then Lookup(e.metadata.value, FOLLOWS) else None;
    if m.Some? && m.value.JNum? then Some(ToInt(m.value.n)) else None
  }

  /** The event without its server-assigned fields. */
  function Unassigned(e: Event): Event { e.(seq_ := -1, snapshotId := None) }

  /** A native form, or a complete legacy form. */
  predicate Decodable(op: WireOp) {
    op.native.Some? || (op.insert.Some? && op.start.Some? && op.end.Some? && op.text.Some?)
  }

  /** The native form decides when both are there. */
  function ToDiff(op: WireOp): TextDiff.Diff {
    if op.native.Some? then
      var n := op.native.value;
      TextDiff.Diff(n.op, n.data, if n.range.Some? then n.range else Some(TextDiff.Range(0, 0)))
    else if Decodable(op) then
      TextDiff.Diff(if op.insert.value then TextDiff.INSERT else TextDiff.DELETE, Scrub(op.text.value),
                    Some(TextDiff.Range(op.start.value, op.end.value)))
    else TextDiff.Diff(TextDiff.RETAIN, [], None)
  }

  /** Inserts and deletes change the text; retained spans are skipped. */
  function ApplyOp(content: Text, op: WireOp): Text {
    var diff := ToDiff(op);
    if diff.op == TextDiff.INSERT || diff.op == TextDiff.DELETE then TextDiff.ApplyDiff(content, diff) else content
  }

  function ApplyOps(content: Text, ops: seq<WireOp>): Text {
    if ops == [] then content else ApplyOp(ApplyOps(content, ops[..|ops| - 1]), ops[|ops| - 1])
  }

  function ApplyEvents(content: Text, events: seq<Event>): Text {
    if events == [] then content
    else ApplyOps(ApplyEvents(content, events[..|events| - 1]), events[|events| - 1].ops)
  }

  // Hashes ------------------------------------------------------------------------------

  /** SHA-256 of a text's UTF-8 bytes, taken to be free of collisions. */
  datatype Digest = SourceDigest(bytes: Text)

  function HashSource(content: Text): Digest { SourceDigest(Scrub(content)) }

  /** An integer in metadata.followsSeq is the named predecessor, and nothing else is one. */
  lemma FollowsNamed(e: Event, n: int)
    ensures e.metadata.Some? && Lookup(e.metadata.value, U("followsSeq")) == Some(IntJson(n)) ==>
              FollowsSeq(e) == Some(n)
    ensures e.metadata.None? || Lookup(e.metadata.value, U("followsSeq")).None? ==> FollowsSeq(e).None?
  {
    hide U;
    IntRoundTrip(n);
  }

  /** Hashes of contents are equal exactly when their bytes are. */
  lemma HashSourceDecides(a: Text, b: Text)
    ensures HashSource(a) == HashSource(b) <==> Utf8.Encode(a, 0) == Utf8.Encode(b, 0)
  {
    Utf8.ScrubIsBytes(a, b);
  }

  /** hashNulldownSourceContent(`${domain}\n${text}`) */
  function DomainHash(domain: string, text: Text): Digest { HashSource(U(domain) + [10] + text) }

  /** Well-formed texts are told apart by their hash in a domain. */
  lemma DomainHashDecides(domain: string, a: Text, b: Text)
    requires WellFormed(U(domain)) && WellFormed(a) && WellFormed(b)
    ensures DomainHash(domain, a) == DomainHash(domain, b) <==> a == b
  {
    hide U;
    var p := U(domain) + [10];
    WellFormedConcat(U(domain), [10]);
    WellFormedConcat(p, a);
    WellFormedConcat(p, b);
    ScrubFixed(p + a);
    ScrubFixed(p + b);
    assert (p + a)[|p|..] == a && (p + b)[|p|..] == b;
  }

  // The identity of an event -------------------------------------------------------------------

  /** An optional property in front. */
  function Opt(k: Text, v: Option<Json>, m: Members): Members { if v.Some? then MCons(k, v.value, m) else m }

  function OptText(t: Option<Text>): Option<Json> { if t.Some? then Some(JStr(t.value)) else None }
  function OptInt(n: Option<int>): Option<Json> { if n.Some? then Some(IntJson(n.value)) else None }

  function RangeJson(r: TextDiff.Range): Json {
    JObj(Opt(U("start"), Some(IntJson(r.start)), Opt(U("end"), Some(IntJson(r.end)), MNil)))
  }

  function OpCode(op: TextDiff.DiffOp): int {
    match op case INSERT => 0 case DELETE => 1 case RETAIN => 2
  }

  function NativeJson(n: NativeOp): Json {
    JObj(Opt(U("op"), Some(IntJson(OpCode(n.op))), Opt(U("data"), Some(JStr(n.data)),
         Opt(U("range"), if n.range.Some? then Some(RangeJson(n.range.value)) else None, MNil))))
  }

  function TypeJson(insert: Option<bool>): Option<Json> {
    if insert.None? then None else Some(JStr(if insert.value then U("insert") else U("delete")))
  }

  function OptNative(n: Option<NativeOp>): Option<Json> { if n.Some? then Some(NativeJson(n.value)) else None }

  function OpJson(op: WireOp): Json {
    JObj(Opt(U("type"), TypeJson(op.insert), Opt(U("start"), OptInt(op.start), Opt(U("end"), OptInt(op.end),
         Opt(U("text"), OptText(op.text), Opt(U("native"), OptNative(op.native), MNil))))))
  }

  function OpsJson(ops: seq<WireOp>): Items {
    if ops == [] then INil else ICons(OpJson(ops[0]), OpsJson(ops[1..]))
  }

  /** The identity that is hashed: no sequence and no snapshot. */
  function EventJson(e: Event): Json {
    JObj(Opt(U("eventId"), Some(JStr(e.eventId)), Opt(U("dropId"), Some(JStr(e.dropId)),
         Opt(U("sourceClientId"), Some(JStr(e.sourceClientId)), Opt(U("createdAt"), Some(IntJson(e.createdAt)),
         Opt(U("ops"), Some(JArr(OpsJson(e.ops))), Opt(U("metadata"), e.metadata, MNil)))))))
  }

  function PayloadHash(e: Event): Digest { DomainHash("nulldown.branch-event.v1", Canonical(EventJson(e))) }

  ghost predicate WfEvent(e: Event) { e.metadata.Some? ==> Wf(e.metadata.value) }

  /** The same event as its writer sees it: metadata up to key order, no assigned fields. */
  ghost predicate SameIntent(a: Event, b: Event) {
    && a.eventId == b.eventId && a.dropId == b.dropId && a.sourceClientId == b.sourceClientId
    && a.createdAt == b.createdAt && a.ops == b.ops && SameField(a.metadata, b.metadata)
  }

  // State records -----------------------------------------------------------------------

  datatype Target = Target(rootDropId: Text, branchId: Text)
  datatype Placement = Placement(routingVersion: int, generation: int)
  datatype Version = Version(snapshotId: int, eventSeq: int, sourceContentHash: Digest)

  datatype BranchMode = Owner | Clone
  datatype BranchStatus = Active | Promoted | Archived

  datatype Branch = Branch(
    rootDropId: Text, branchId: Text, baseDropId: Text, mode: BranchMode, status: BranchStatus,
    ownerAccountId: Option<Text>, writerAccountId: Option<Text>, writerClientId: Option<Text>,
    headSnapshotId: int, headEventSeq: int, snapshotHeapVersion: int, checkpointInterval: int,
    createdAt: int, updatedAt: int)

  datatype Head = Head(target: Target, placement: Placement, branch: Branch, version: Version)

  datatype Snapshot = Snapshot(
    target: Target, snapshotId: int, parentSnapshotId: Option<int>, seq_: int, eventIds: seq<Text>,
    checkpointed: bool, patchStartSeq: Option<int>, patchEndSeq: Option<int>, textLength: nat,
    sourceContentHash: Digest, createdAt: int)

  /** `eventSeq` is absent on single-event receipts, where version.eventSeq is the sequence. */
  datatype Receipt = Receipt(
    target: Target, placement: Placement, eventId: Text, payloadHash: Digest, eventSeq: Option<int>, version: Version)

  function SeqOf(r: Receipt): int { if r.eventSeq.Some? then r.eventSeq.value else r.version.eventSeq }

  datatype OutboxRow =
    | CommitRow(id: Text, receipt: Receipt)
    | BatchRow(id: Text, target: Target, placement: Placement, version: Version, parentSnapshotId: int,
               eventIds: seq<Text>, receipts: seq<Receipt>, deduplicated: int, totalStored: int)

  /** A string, or a number that prints as itself. */
  predicate PlainPart(x: Json) { Wf(x) && (x.JStr? || (x.JNum? && Fold(x.n) == x.n)) }

  /** JSON.stringify of an array. */
  function Tuple(parts: seq<Json>): Items {
    if parts == [] then INil else ICons(parts[0], Tuple(parts[1..]))
  }

  function TupleText(parts: seq<Json>): Text { Write(JArr(Tuple(parts))) }

  function IntJson(n: int): Json { JNum(FromInt(n)) }

  function CommitRowId(target: Target, eventId: Text): Text {
    TupleText([JStr(U("branch.commit.v1")), JStr(target.rootDropId), JStr(target.branchId), JStr(eventId)])
  }

  function BatchRowId(target: Target, snapshotId: int): Text {
    TupleText([JStr(U("branch.batch-commit.v1")), JStr(target.rootDropId), JStr(target.branchId), IntJson(snapshotId)])
  }

  /** The owner and the writer of a branch may add facts and memory to it. */
  predicate Authorized(actorAccountId: Text, head: Head) {
    head.branch.ownerAccountId == Some(actorAccountId) || head.branch.writerAccountId == Some(actorAccountId)
  }

  /** The coherence a captured head must have before anything is prepared against it. */
  predicate HeadCoherent(head: Head) {
    && head.branch.rootDropId == head.target.rootDropId && head.branch.branchId == head.target.branchId
    && head.branch.headSnapshotId == head.version.snapshotId && head.branch.headEventSeq == head.version.eventSeq
  }

  // Tuple texts are equal only when the tuples are ------------------------------------------

  lemma {:induction false} TupleWf(parts: seq<Json>)
    requires forall i :: 0 <= i < |parts| ==> PlainPart(parts[i])
    ensures WfItems(Tuple(parts)) && FoldItems(Tuple(parts)) == Tuple(parts)
    decreases |parts|
  {
    if parts != [] { TupleWf(parts[1..]); }
  }

  lemma {:induction false} TupleInjective(a: seq<Json>, b: seq<Json>)
    requires Tuple(a) == Tuple(b)
    ensures a == b
    decreases |a|
  {
    if a != [] && b != [] {
      TupleInjective(a[1..], b[1..]);
      assert a == [a[0]] + a[1..] && b == [b[0]] + b[1..];
    }
  }

  lemma TupleTextDecides(a: seq<Json>, b: seq<Json>)
    requires forall i :: 0 <= i < |a| ==> PlainPart(a[i])
    requires forall i :: 0 <= i < |b| ==> PlainPart(b[i])
    ensures TupleText(a) == TupleText(b) <==> a == b
  {
    TupleWf(a);
    TupleWf(b);
    ParseWrite(JArr(Tuple(a)));
    ParseWrite(JArr(Tuple(b)));
    if Tuple(a) == Tuple(b) { TupleInjective(a, b); }
  }

  lemma IntJsonDecides(m: int, n: int)
    ensures IntJson(m) == IntJson(n) <==> m == n
    ensures Wf(IntJson(m)) && Fold(FromInt(m)) == FromInt(m)
  {
    IntRoundTrip(m);
    IntRoundTrip(n);
  }

  lemma IntIsNumber(n: int)
    ensures IntJson(n) == JNum(IntJson(n).n) && IntJson(n).n == FromInt(n)
  {
  }

  // Reading fields of parsed JSON -----------------------------------------------------------

  const KIND := U("kind")
  const CREATED_AT := U("createdAt")
  const ROOT := U("rootDropId")
  const BRANCH := U("branchId")

  predicate IsText(j: Option<Json>) { j.Some? && j.value.JStr? }
  predicate MaybeText(j: Option<Json>) { j.None? || j.value.JStr? }

  function TextAt(j: Json, k: Text): Text {
    if IsText(Lookup(j, k)) then Lookup(j, k).value.s else []
  }

  /** A non-negative safe integer. */
  predicate IsNat(j: Option<Json>) {
    j.Some? && j.value.JNum? && |j.value.n.digits| <= j.value.n.point && 0 <= ToInt(j.value.n) <= MAX_SAFE
  }

  function NatOf(j: Option<Json>): int
    requires IsNat(j)
  {
    ToInt(j.value.n)
  }

  lemma IntField(n: int)
    requires 0 <= n <= MAX_SAFE
    ensures IsNat(Some(IntJson(n))) && NatOf(Some(IntJson(n))) == n
  {
    IntRoundTrip(n);
  }

  /** The two document kinds of outbox row never share an id, and each id names its row. */
  lemma RowIdsDecide(t: Target, u: Target, e: Text, f: Text, m: int, n: int)
    ensures CommitRowId(t, e) == CommitRowId(u, f) <==> t == u && e == f
    ensures BatchRowId(t, m) == BatchRowId(u, n) <==> t == u && m == n
    ensures CommitRowId(t, e) != BatchRowId(u, n)
  {
    IntJsonDecides(m, n);
    IntJsonDecides(n, m);
    var k, l := JStr(U("branch.commit.v1")), JStr(U("branch.batch-commit.v1"));
    var ct := [k, JStr(t.rootDropId), JStr(t.branchId), JStr(e)];
    var cu := [k, JStr(u.rootDropId), JStr(u.branchId), JStr(f)];
    var bt := [l, JStr(t.rootDropId), JStr(t.branchId), IntJson(m)];
    var bu := [l, JStr(u.rootDropId), JStr(u.branchId), IntJson(n)];
    TupleTextDecides(ct, cu);
    TupleTextDecides(bt, bu);
    TupleTextDecides(ct, bu);
    assert ct[1] == JStr(t.rootDropId) && ct[2] == JStr(t.branchId) && ct[3] == JStr(e);
    assert bt[1] == JStr(t.rootDropId) && bt[2] == JStr(t.branchId) && bt[3] == IntJson(m);
    assert ct[3] != bu[3];
  }
}
