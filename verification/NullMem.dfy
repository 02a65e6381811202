/** Branch memory (shared/drop/branch-nullmem.ts): mutable records, the log of mutations and the
    integrity checker that replays it. A record is a JSON object with its extension fields. */
module NullMem {
  import opened Wrappers
  import opened JsText
  import opened Json
  import opened JsonCanonical
  import opened JsonEdit
  import opened BranchState

  const RECORD_ID := U("recordId")
  const FACT := U("fact")
  const PROCEDURE := U("procedure")
  const CAPABILITY := U("capability")
  const MEMORY_KIND := U("branch.nullmem.v1")

  /** What the code below relies on of isNullMemRecord. */
  predicate IsRecord(r: Json) {
    && Wf(r) && r.JObj?
    && Lookup(r, KIND) in {Some(JStr(FACT)), Some(JStr(PROCEDURE)), Some(JStr(CAPABILITY))}
    && IsText(Lookup(r, RECORD_ID)) && MaybeText(Lookup(r, ROOT)) && MaybeText(Lookup(r, BRANCH))
    && Lookup(r, CREATED_AT).Some? && Lookup(r, CREATED_AT).value.JNum?
  }

  /** validateNullMemRecord */
  predicate ValidRecord(r: Json, target: Target) {
    && IsRecord(r) && TextAt(r, KIND) != CAPABILITY
    && Lookup(r, ROOT) == Some(JStr(target.rootDropId)) && Lookup(r, BRANCH) == Some(JStr(target.branchId))
  }

  function RecordIdentity(r: Json): Text { TupleText([JStr(TextAt(r, KIND)), JStr(TextAt(r, RECORD_ID))]) }

  lemma RecordIdentityDecides(r: Json, s: Json)
    ensures RecordIdentity(r) == RecordIdentity(s) <==>
              TextAt(r, KIND) == TextAt(s, KIND) && TextAt(r, RECORD_ID) == TextAt(s, RECORD_ID)
  {
    hide U;
    var a := [JStr(TextAt(r, KIND)), JStr(TextAt(r, RECORD_ID))];
    var b := [JStr(TextAt(s, KIND)), JStr(TextAt(s, RECORD_ID))];
    TupleTextDecides(a, b);
    assert a[0] == JStr(TextAt(r, KIND)) && a[1] == JStr(TextAt(r, RECORD_ID));
    assert b[0] == JStr(TextAt(s, KIND)) && b[1] == JStr(TextAt(s, RECORD_ID));
  }

  // Intent and assigned time -----------------------------------------------------------------

  /** nullMemRecordIntent: the canonical record without createdAt. */
  function RecordIntent(r: Json): Text {
    var copy := Parse(Canonical(r));
    if copy.Some? && copy.value.JObj? then Canonical(JObj(Delete(copy.value.members, CREATED_AT))) else []
  }

  /** { ...record, createdAt: now } */
  function Stamped(r: Json, now: int): Json {
    if r.JObj? then JObj(Put(r.members, CREATED_AT, IntJson(now))) else r
  }

  predicate StampedAt(r: Json, time: int) { IsNat(Lookup(r, CREATED_AT)) && NatOf(Lookup(r, CREATED_AT)) == time }

  lemma IntentText(r: Json)
    requires Wf(r) && r.JObj?
    ensures RecordIntent(r) == Canonical(JObj(Delete(r.members, CREATED_AT)))
  {
    hide U, Wf, Same, SameField, Norm;
    ParseCanonical(r);
    WfObject(r);
    NormObject(r.members);
    var n := Norm(r).members;
    DeleteMap(n, CREATED_AT);
    DeleteMap(r.members, CREATED_AT);
    forall k ensures SameField(Lookup(JObj(n), k), Lookup(JObj(r.members), k)) { NormField(r.members, k); }
    SameDeleted(n, r.members);
    DeletedWf(n);
    DeletedWf(r.members);
    CanonicalDecides(JObj(Delete(n, CREATED_AT)), JObj(Delete(r.members, CREATED_AT)));
  }

  lemma WfObject(r: Json)
    requires Wf(r) && r.JObj?
    ensures WfMembers(r.members)
  {
  }

  lemma NormObject(m: Members)
    requires WfMembers(m)
    ensures Norm(JObj(m)) == JObj(NormMembers(m)) && WfMembers(NormMembers(m)) && Wf(JObj(m))
  {
    NormMembersWf(m);
  }

  lemma DeletedWf(m: Members)
    requires WfMembers(m)
    ensures Wf(JObj(Delete(m, CREATED_AT)))
  {
    DeleteMap(m, CREATED_AT);
  }

  lemma SameDeleted(a: Members, b: Members)
    requires WfMembers(a) && WfMembers(b)
    ensures Same(JObj(Delete(a, CREATED_AT)), JObj(Delete(b, CREATED_AT))) <==>
              forall k :: k != CREATED_AT ==> SameField(Lookup(JObj(a), k), Lookup(JObj(b), k))
  {
    hide U, Same, SameField;
    DeleteMap(a, CREATED_AT);
    DeleteMap(b, CREATED_AT);
    SameByKeys(Delete(a, CREATED_AT), Delete(b, CREATED_AT));
    var x, y := ToMap(a), ToMap(b);
    SameBut(x, y, CREATED_AT, CREATED_AT + [0], JNull, JNull);
    assert forall k :: Lookup(JObj(a), k) == Get(x, k) && Lookup(JObj(b), k) == Get(y, k);
  }

  /** Records have the same intent exactly when they differ at most in createdAt. */
  lemma RecordIntentDecides(r: Json, s: Json)
    requires Wf(r) && r.JObj? && Wf(s) && s.JObj?
    ensures RecordIntent(r) == RecordIntent(s) <==> forall k :: k != CREATED_AT ==>
              SameField(Lookup(r, k), Lookup(s, k))
  {
    hide *;
    IntentText(r);
    IntentText(s);
    WfObject(r);
    WfObject(s);
    SameDeleted(r.members, s.members);
    DeletedWf(r.members);
    DeletedWf(s.members);
    CanonicalDecides(JObj(Delete(r.members, CREATED_AT)), JObj(Delete(s.members, CREATED_AT)));
    assert r == JObj(r.members) && s == JObj(s.members);
  }

  lemma StampedFields(r: Json, now: int)
    requires Wf(r) && r.JObj?
    ensures var s := Stamped(r, now);
            && Wf(s) && s.JObj? && Lookup(s, CREATED_AT) == Some(IntJson(now))
            && forall k :: k != CREATED_AT ==> Lookup(s, k) == Lookup(r, k)
  {
    IntJsonDecides(now, now);
    hide U, IntJson;
    PutMap(r.members, CREATED_AT, IntJson(now));
  }

  lemma RecordKeys()
    ensures CREATED_AT != KIND && CREATED_AT != RECORD_ID && CREATED_AT != ROOT && CREATED_AT != BRANCH
  {
    assert |CREATED_AT| == 9 && |KIND| == 4 && |RECORD_ID| == 8 && |ROOT| == 10 && |BRANCH| == 8;
  }

  /** Stamping keeps a record valid, its identity and its intent. */
  lemma StampedRecord(r: Json, target: Target, now: int)
    requires ValidRecord(r, target) && 0 <= now <= MAX_SAFE
    ensures var s := Stamped(r, now);
            && ValidRecord(s, target) && StampedAt(s, now) && RecordIntent(s) == RecordIntent(r)
            && RecordIdentity(s) == RecordIdentity(r) && TextAt(s, RECORD_ID) == TextAt(r, RECORD_ID)
  {
    RecordKeys();
    IntField(now);
    StampedFields(r, now);
    hide U, IntJson, Wf, RecordIntent, Stamped, IsNat, NatOf, TupleText, Same;
    var s := Stamped(r, now);
    assert Lookup(s, CREATED_AT).value.JNum? by { IntIsNumber(now); }
    forall k | k != CREATED_AT ensures SameField(Lookup(s, k), Lookup(r, k)) { RecordFieldRefl(r, k); }
    RecordIntentDecides(s, r);
  }

  lemma RecordFieldRefl(r: Json, k: Text)
    requires Wf(r) && r.JObj?
    ensures SameField(Lookup(r, k), Lookup(r, k))
  {
    FieldRefl(r, k);
  }

  // The log ----------------------------------------------------------------------------------

  datatype MemoryResult = MemoryResult(target: Target, placement: Placement, head: Head, memoryRevision: int)

  /** `OtherMutation` is an entry that is neither a put nor a deletion by string id. */
  datatype Mutation = PutRecord(record: Json) | DeleteRecord(recordId: Text) | OtherMutation

  datatype Entry = Entry(
    kind: Text, id: Text, actorAccountId: Text, createdAt: int, intent: Text, result: MemoryResult, mutation: Mutation)

  /** Live records in the order of their map, and the log that produced them. */
  datatype Memory = Memory(revision: int, records: seq<Json>, log: seq<Entry>)

  datatype PutCommand = PutCommand(target: Target, placement: Placement, actorAccountId: Text, record: Json)
  datatype DeleteCommand = DeleteCommand(target: Target, placement: Placement, actorAccountId: Text, recordId: Text)

  function MemoryRowParts(target: Target, placement: Placement, revision: int): seq<Json> {
    [JStr(MEMORY_KIND), JStr(target.rootDropId), JStr(target.branchId),
     IntJson(placement.routingVersion), IntJson(placement.generation), IntJson(revision)]
  }

  function MemoryRowId(target: Target, placement: Placement, revision: int): Text {
    TupleText(MemoryRowParts(target, placement, revision))
  }

  function IntentOf(m: Mutation): Text {
    match m
    case PutRecord(r) => RecordIntent(r)
    case DeleteRecord(id) => Write(JStr(id))
    case OtherMutation => []
  }

  function MakeEntry(actorAccountId: Text, now: int, result: MemoryResult, mutation: Mutation): Result<Entry> {
    if !IsSafe(now) || now < 0 || !IsSafe(result.memoryRevision) || result.memoryRevision < 1 then Err(InvalidCommand)
    else Ok(Entry(MEMORY_KIND, MemoryRowId(result.target, result.placement, result.memoryRevision), actorAccountId, now,
                  IntentOf(mutation), result, mutation))
  }

  /** prepareNullMemPut */
  function PreparePut(command: PutCommand, head: Head, revision: int, now: int): Result<Entry> {
    MakeEntry(command.actorAccountId, now, MemoryResult(command.target, command.placement, head, revision + 1),
              PutRecord(Stamped(command.record, now)))
  }

  /** prepareNullMemDelete */
  function PrepareDelete(command: DeleteCommand, head: Head, revision: int, now: int): Result<Entry> {
    MakeEntry(command.actorAccountId, now, MemoryResult(command.target, command.placement, head, revision + 1),
              DeleteRecord(command.recordId))
  }

  /** validateNullMemResult */
  predicate ValidResult(v: MemoryResult, target: Target, placement: Placement) {
    var m, n := v.head.version.snapshotId, v.head.version.eventSeq;
    && v.target == target && v.placement == placement && v.head.target == target && v.head.placement == placement
    && 0 <= v.memoryRevision <= MAX_SAFE && 0 <= m <= MAX_SAFE && -1 <= n <= MAX_SAFE
    && HeadCoherent(v.head)
    && (if m == 0 then n == -1 else n >= m - 1)
  }

  // What the checker decides -------------------------------------------------------------------

  predicate NotBefore(a: Version, b: Version) { a.snapshotId <= b.snapshotId && a.eventSeq <= b.eventSeq }

  /** One log entry on its own, at its revision. */
  predicate EntryOk(head: Head, e: Entry, revision: int) {
    && ValidResult(e.result, head.target, head.placement)
    && e.kind == MEMORY_KIND && e.result.memoryRevision == revision
    && e.id == MemoryRowId(e.result.target, e.result.placement, e.result.memoryRevision)
    && 0 <= e.createdAt <= MAX_SAFE && e.actorAccountId != []
    && NotBefore(e.result.head.version, head.version)
    && Authorized(e.actorAccountId, e.result.head)
    && !e.mutation.OtherMutation? && e.intent == IntentOf(e.mutation)
    && (e.mutation.PutRecord? ==>
          ValidRecord(e.mutation.record, head.target) && StampedAt(e.mutation.record, e.createdAt))
  }

  /** Revisions count up from the baseline and heads never go back. */
  ghost predicate LogOk(head: Head, log: seq<Entry>, base: int) {
    && (forall i :: 0 <= i < |log| ==> EntryOk(head, log[i], base + i + 1))
    && (forall i :: 0 < i < |log| ==> NotBefore(log[i - 1].result.head.version, log[i].result.head.version))
  }

  function Mutate(records: map<Text, Json>, m: Mutation): map<Text, Json> {
    match m
    case PutRecord(r) => records[RecordIdentity(r) := r]
    case DeleteRecord(recordId) => map id | id in records && TextAt(records[id], RECORD_ID) != recordId :: records[id]
    case OtherMutation => records
  }

  /** The table that a log leaves behind. */
  function Replayed(base: map<Text, Json>, log: seq<Entry>): map<Text, Json> {
    if log == [] then base else Mutate(Replayed(base, log[..|log| - 1]), log[|log| - 1].mutation)
  }

  ghost predicate DistinctRecords(records: seq<Json>) {
    forall i, j :: 0 <= i < j < |records| ==> RecordIdentity(records[i]) != RecordIdentity(records[j])
  }

  function Table(records: seq<Json>): map<Text, Json> {
    if records == [] then map[]
      else Table(records[..|records| - 1])[RecordIdentity(records[|records| - 1]) := records[|records| - 1]]
  }

  ghost predicate AllValid(records: seq<Json>, target: Target) {
    forall i :: 0 <= i < |records| ==> ValidRecord(records[i], target)
  }

  /** The live records are the expected table: each identity once, each value the same. */
  ghost predicate RecordsMatch(target: Target, records: seq<Json>, expected: map<Text, Json>) {
    && |records| == |expected| && DistinctRecords(records) && AllValid(records, target)
    && forall i :: 0 <= i < |records| ==>
         RecordIdentity(records[i]) in expected && Same(expected[RecordIdentity(records[i])], records[i])
  }

  datatype MemoryBaseline = MemoryBaseline(revision: int, records: seq<Json>)

  const EMPTY := MemoryBaseline(0, [])

  /** A state whose live records are the replay of a well-formed log over its baseline. */
  ghost predicate StateValid(head: Head, mem: Memory, base: MemoryBaseline) {
    && ValidResult(MemoryResult(head.target, head.placement, head, mem.revision), head.target, head.placement)
    && IsSafe(base.revision) && 0 <= base.revision <= mem.revision && |mem.log| == mem.revision - base.revision
    && AllValid(base.records, head.target) && DistinctRecords(base.records)
    && LogOk(head, mem.log, base.revision)
    && RecordsMatch(head.target, mem.records, Replayed(Table(base.records), mem.log))
  }
}
