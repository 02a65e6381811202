/** Puts and deletes as the owner publishes them (putNullMem and deleteNullMem of
    src/server/state-plane/memory-commits.ts), and that the checker accepts every state they reach. */
module NullMemState {
  import opened Wrappers
  import opened JsText
  import opened Json
  import opened JsonCanonical
  import opened JsonEdit
  import opened BranchState
  import opened Timeline
  import opened FactStream
  import opened NullMem
  import opened NullMemCheck

  // The record table ---------------------------------------------------------------------------

  function IndexOf(records: seq<Json>, id: Text): (i: int)
    ensures -1 <= i < |records|
    ensures i >= 0 ==> RecordIdentity(records[i]) == id
    ensures i < 0 ==> forall k :: 0 <= k < |records| ==> RecordIdentity(records[k]) != id
  {
    if records == [] then -1
    else if RecordIdentity(records[|records| - 1]) == id then |records| - 1
    else IndexOf(records[..|records| - 1], id)
  }

  /** Map.prototype.set: in place when the identity is there, last otherwise. */
  function SetRecord(records: seq<Json>, r: Json): seq<Json> {
    var i := IndexOf(records, RecordIdentity(r));
    if i >= 0 then records[i := r] else records + [r]
  }

  function RemoveRecords(records: seq<Json>, recordId: Text): seq<Json> {
    if records == [] then []
    else RemoveRecords(records[..|records| - 1], recordId)
         + (if TextAt(records[|records| - 1], RECORD_ID) == recordId then [] else [records[|records| - 1]])
  }

  lemma TableAt(records: seq<Json>, i: nat)
    requires i < |records| && DistinctRecords(records)
    ensures RecordIdentity(records[i]) in Table(records) && Table(records)[RecordIdentity(records[i])] == records[i]
  {
    hide RecordIdentity, Table;
    TableKeys(records);
    var r := Table(records)[RecordIdentity(records[i])];
    var k :| 0 <= k < |records| && records[k] == r;
  }

  lemma TableIs(records: seq<Json>, m: map<Text, Json>)
    requires DistinctRecords(records)
    requires forall i :: 0 <= i < |records| ==>
               RecordIdentity(records[i]) in m && m[RecordIdentity(records[i])] == records[i]
    requires forall id :: id in m ==> exists i :: 0 <= i < |records| && RecordIdentity(records[i]) == id
    ensures Table(records) == m
  {
    hide RecordIdentity, Table;
    TableKeys(records);
    forall id | id in m ensures id in Table(records) && Table(records)[id] == m[id] {
      var i :| 0 <= i < |records| && RecordIdentity(records[i]) == id;
      TableAt(records, i);
    }
    forall id | id in Table(records) ensures id in m {
      var i :| 0 <= i < |records| && RecordIdentity(records[i]) == id;
    }
  }

  /** Setting a record is the map update. */
  lemma SetTable(records: seq<Json>, r: Json)
    requires DistinctRecords(records)
    ensures DistinctRecords(SetRecord(records, r))
    ensures Table(SetRecord(records, r)) == Table(records)[RecordIdentity(r) := r]
  {
    hide RecordIdentity, Table, IndexOf;
    var id, i := RecordIdentity(r), IndexOf(records, RecordIdentity(r));
    var next, m := SetRecord(records, r), Table(records)[RecordIdentity(r) := r];
    TableKeys(records);
    var at := if i >= 0 then i else |records|;
    assert next[at] == r && forall k :: 0 <= k < |records| && k != at ==> next[k] == records[k];
    assert forall k :: 0 <= k < |records| ==> RecordIdentity(next[k]) == RecordIdentity(records[k]);
    forall k | 0 <= k < |next| ensures RecordIdentity(next[k]) in m && m[RecordIdentity(next[k])] == next[k] {
      if k != at { TableAt(records, k); }
    }
    forall x | x in m ensures exists k :: 0 <= k < |next| && RecordIdentity(next[k]) == x {
      if x in Table(records) {
        var k :| 0 <= k < |records| && RecordIdentity(records[k]) == x;
        assert RecordIdentity(next[k]) == x;
      } else {
        assert RecordIdentity(next[at]) == x;
      }
    }
    TableIs(next, m);
  }

  lemma StillDistinct(front: seq<Json>, rest: seq<Json>, last: Json)
    requires DistinctRecords(front + [last]) && DistinctRecords(rest) && forall r :: r in rest ==> r in front
    ensures DistinctRecords(rest + [last])
  {
    hide RecordIdentity;
    var records := front + [last];
    forall k | 0 <= k < |rest| ensures RecordIdentity(rest[k]) != RecordIdentity(last) {
      assert rest[k] in front;
      var i :| 0 <= i < |front| && front[i] == rest[k];
      assert records[i] == rest[k] && records[|front|] == last;
    }
  }

  /** Removing by record id is the map deletion, across kinds. */
  lemma {:induction false} RemoveTable(records: seq<Json>, recordId: Text)
    requires DistinctRecords(records)
    ensures var rest := RemoveRecords(records, recordId);
            && DistinctRecords(rest) && Table(rest) == Mutate(Table(records), DeleteRecord(recordId))
            && (forall r :: r in rest ==> r in records)
    decreases |records|
  {
    hide RecordIdentity, TextAt;
    if records != [] {
      var front, last := records[..|records| - 1], records[|records| - 1];
      assert forall i :: 0 <= i < |front| ==> front[i] == records[i];
      RemoveTable(front, recordId);
      var rest := RemoveRecords(front, recordId);
      StillDistinct(front, rest, last);
      LastNew(front, last);
      RemoveLast(Table(front), last, recordId);
      var whole := rest + [last];
      assert whole[..|whole| - 1] == rest && Table(whole) == Table(rest)[RecordIdentity(last) := last];
      assert RemoveRecords(records, recordId) == if TextAt(last, RECORD_ID) == recordId then rest else whole;
    }
  }

  lemma RemoveLast(m: map<Text, Json>, last: Json, recordId: Text)
    requires RecordIdentity(last) !in m
    ensures Mutate(m[RecordIdentity(last) := last], DeleteRecord(recordId)) ==
              if TextAt(last, RECORD_ID) == recordId then Mutate(m, DeleteRecord(recordId))
              else Mutate(m, DeleteRecord(recordId))[RecordIdentity(last) := last]
  {
    hide RecordIdentity, TextAt;
  }

  lemma LastNew(front: seq<Json>, last: Json)
    requires forall i :: 0 <= i < |front| ==> RecordIdentity(front[i]) != RecordIdentity(last)
    ensures RecordIdentity(last) !in Table(front)
  {
    hide RecordIdentity, Table;
    TableKeys(front);
  }

  // The owner's operations -----------------------------------------------------------------------

  /** Every log entry was published at a version that is still stored. */
  predicate LogStored(d: Doc, log: seq<Entry>) {
    forall i :: 0 <= i < |log| ==>
      var v := log[i].result.head.version;
      v.snapshotId in d.snapshots && d.snapshots[v.snapshotId].version == v
  }

  /** Why a branch's memory cannot be used: routing, content, or a failed integrity check. */
  ghost function AccessError(d: Doc, mem: Memory, placement: Placement): Option<Code> {
    if RouteError(placement, d.head).Some? then RouteError(placement, d.head)
    else if ContentError(d, d.head.version).Some? then ContentError(d, d.head.version)
    else if !StateValid(d.head, mem, EMPTY) || !LogStored(d, mem.log) then Some(StateCorrupt)
    else None
  }

  /** putNullMem */
  ghost function PutMemory(d: Doc, mem: Memory, command: PutCommand, now: int): (r: Result<Memory>)
    ensures r.Ok? ==> mem.log <= r.value.log && |r.value.log| == |mem.log| + 1
  {
    var error, entry := AccessError(d, mem, command.placement), PreparePut(command, d.head, mem.revision, now);
    if error.Some? then Err(error.value)
    else if !Authorized(command.actorAccountId, d.head) then Err(Forbidden)
    else if entry.Err? then Err(entry.code)
    else Ok(Memory(mem.revision + 1, SetRecord(mem.records, Stamped(command.record, now)), mem.log + [entry.value]))
  }

  /** deleteNullMem */
  ghost function DeleteMemory(d: Doc, mem: Memory, command: DeleteCommand, now: int): (r: Result<Memory>)
    ensures r.Ok? ==> mem.log <= r.value.log && |r.value.log| == |mem.log| + 1
  {
    var error, entry := AccessError(d, mem, command.placement), PrepareDelete(command, d.head, mem.revision, now);
    if error.Some? then Err(error.value)
    else if !Authorized(command.actorAccountId, d.head) then Err(Forbidden)
    else if entry.Err? then Err(entry.code)
    else Ok(Memory(mem.revision + 1, RemoveRecords(mem.records, command.recordId), mem.log + [entry.value]))
  }

  /** captureNullMemPut and captureNullMemDelete, on the JSON value the object walk accepted */
  function CapturePut(input: PutCommand): Result<PutCommand> {
    var record := Parse(Canonical(input.record));
    if input.actorAccountId == [] || record.None? || !ValidRecord(record.value, input.target) then Err(InvalidCommand)
    else Ok(input.(record := record.value))
  }

  predicate CapturedPut(command: PutCommand) {
    command.actorAccountId != [] && ValidRecord(command.record, command.target)
  }

  // What every reachable state keeps -------------------------------------------------------------

  ghost predicate RecordStamped(r: Json) { IsNat(Lookup(r, CREATED_AT)) }

  /** The live records are exactly the table the log leaves; every entry is in order. */
  ghost predicate MemoryInv(d: Doc, mem: Memory) {
    && 0 <= mem.revision <= MAX_SAFE && |mem.log| == mem.revision
    && LogOk(d.head, mem.log, 0) && LogStored(d, mem.log)
    && DistinctRecords(mem.records) && AllValid(mem.records, d.head.target)
    && (forall i :: 0 <= i < |mem.records| ==> RecordStamped(mem.records[i]))
    && Table(mem.records) == Replayed(map[], mem.log)
  }

  lemma {:induction false} TableSize(records: seq<Json>)
    requires DistinctRecords(records)
    ensures |Table(records)| == |records|
  {
    hide RecordIdentity, Table;
    IdentityCount(records);
    TableKeys(records);
    assert Table(records).Keys == Identities(records);
    assert |Table(records).Keys| == |Table(records)|;
  }

  lemma HeadResult(head: Head, revision: int)
    requires HeadOk(head) && 0 <= revision <= MAX_SAFE
    ensures ValidResult(MemoryResult(head.target, head.placement, head, revision), head.target, head.placement)
  {
  }

  /** The integrity check passes on every state that keeps the invariant. */
  lemma CheckerAccepts(d: Doc, mem: Memory)
    requires HeadOk(d.head) && MemoryInv(d, mem)
    ensures StateValid(d.head, mem, EMPTY)
  {
    hide RecordIdentity, ValidRecord, ValidResult, HeadOk, LogOk, Replayed, RecordStamped, LogStored, Same, Table;
    HeadResult(d.head, mem.revision);
    var expected := Replayed(map[], mem.log);
    EmptyTable();
    TableSize(mem.records);
    forall i | 0 <= i < |mem.records|
      ensures RecordIdentity(mem.records[i]) in expected
              && Same(expected[RecordIdentity(mem.records[i])], mem.records[i])
    {
      TableAt(mem.records, i);
      RecordSame(mem.records[i], d.head.target);
    }
    assert RecordsMatch(d.head.target, mem.records, expected);
  }

  lemma EmptyTable()
    ensures Table([]) == map[]
  {
  }

  lemma RecordSame(r: Json, target: Target)
    requires ValidRecord(r, target)
    ensures Same(r, r)
  {
    SameRefl(r);
  }

  /** Entries stay in order under any later head. */
  lemma LogSurvives(a: Head, b: Head, log: seq<Entry>, base: int)
    requires LogOk(a, log, base) && b.target == a.target && b.placement == a.placement
             && NotBefore(a.version, b.version)
    ensures LogOk(b, log, base)
  {
    hide ValidResult, ValidRecord, StampedAt, MemoryRowId, IntentOf;
    forall i | 0 <= i < |log| ensures EntryOk(b, log[i], base + i + 1) { assert EntryOk(a, log[i], base + i + 1); }
  }

  /** Document commits do not disturb the memory. */
  lemma MemorySurvivesCommits(d: Doc, r: Doc, mem: Memory)
    requires MemoryInv(d, mem) && Extends(d, r)
    ensures MemoryInv(r, mem)
  {
    hide EntryOk, RecordIdentity, ValidRecord, Replayed, Table, RecordStamped, LogOk;
    LogSurvives(d.head, r.head, mem.log, 0);
  }

  /** One more entry at the current head. */
  lemma LogAppend(d: Doc, mem: Memory, e: Entry)
    requires Inv(d) && MemoryInv(d, mem) && EntryOk(d.head, e, mem.revision + 1) && e.result.head == d.head
    ensures LogOk(d.head, mem.log + [e], 0) && LogStored(d, mem.log + [e])
  {
    hide Inv, RecordIdentity, ValidRecord, Replayed, Table, RecordStamped, ValidResult, HeadOk, Gapless, AllValid,
         DistinctRecords;
    InvHeld(d);
    var log := mem.log + [e];
    forall i | 0 <= i < |log| ensures EntryOk(d.head, log[i], i + 1) {
      if i < |mem.log| { assert log[i] == mem.log[i] && EntryOk(d.head, mem.log[i], 0 + i + 1); }
    }
    forall i | 0 < i < |log| ensures NotBefore(log[i - 1].result.head.version, log[i].result.head.version) {
      assert EntryOk(d.head, log[i - 1], i);
      if i < |mem.log| { assert log[i] == mem.log[i] && log[i - 1] == mem.log[i - 1]; }
    }
    forall i | 0 <= i < |log|
      ensures var v := log[i].result.head.version; v.snapshotId in d.snapshots && d.snapshots[v.snapshotId].version == v
    {
      if i < |mem.log| { assert log[i] == mem.log[i]; }
    }
  }

  lemma ReplayedAppend(base: map<Text, Json>, log: seq<Entry>, e: Entry)
    ensures Replayed(base, log + [e]) == Mutate(Replayed(base, log), e.mutation)
  {
    assert (log + [e])[..|log + [e]| - 1] == log;
  }

  lemma PutEntryOk(d: Doc, mem: Memory, command: PutCommand, now: int)
    requires HeadOk(d.head) && CapturedPut(command) && command.target == d.head.target
             && command.placement == d.head.placement
    requires Authorized(command.actorAccountId, d.head) && 0 <= mem.revision
             && PreparePut(command, d.head, mem.revision, now).Ok?
    ensures EntryOk(d.head, PreparePut(command, d.head, mem.revision, now).value, mem.revision + 1)
  {
    hide RecordIdentity, ValidRecord, ValidResult, HeadOk, Stamped, StampedAt, MemoryRowId, IntentOf;
    HeadResult(d.head, mem.revision + 1);
    StampedRecord(command.record, d.head.target, now);
  }

  lemma DeleteEntryOk(d: Doc, mem: Memory, command: DeleteCommand, now: int)
    requires HeadOk(d.head) && command.actorAccountId != [] && command.target == d.head.target
             && command.placement == d.head.placement
    requires Authorized(command.actorAccountId, d.head) && 0 <= mem.revision
             && PrepareDelete(command, d.head, mem.revision, now).Ok?
    ensures EntryOk(d.head, PrepareDelete(command, d.head, mem.revision, now).value, mem.revision + 1)
  {
    hide RecordIdentity, ValidRecord, ValidResult, HeadOk, StampedAt, MemoryRowId, IntentOf;
    HeadResult(d.head, mem.revision + 1);
  }

  /** validateNullMemPutResult */
  predicate ValidPutResult(e: Entry, command: PutCommand) {
    && ValidResult(e.result, command.target, command.placement) && Authorized(command.actorAccountId, e.result.head)
    && e.result.memoryRevision >= 1
    && e.mutation.PutRecord? && ValidRecord(e.mutation.record, command.target)
    && IsNat(Lookup(e.mutation.record, CREATED_AT))
    && RecordIntent(e.mutation.record) == RecordIntent(command.record)
  }

  /** validateNullMemDeleteResult */
  predicate ValidDeleteResult(e: Entry, command: DeleteCommand) {
    && ValidResult(e.result, command.target, command.placement) && Authorized(command.actorAccountId, e.result.head)
    && e.result.memoryRevision >= 1 && e.mutation == DeleteRecord(command.recordId)
  }

  /** Every published put passes the caller's check of its response. */
  lemma PutResponseValid(d: Doc, mem: Memory, c: PutCommand, now: int)
    requires Inv(d) && d.head.placement.routingVersion == 1 && 0 <= mem.revision
    requires CapturedPut(c) && c.target == d.head.target && PutMemory(d, mem, c, now).Ok?
    ensures ValidPutResult(PutMemory(d, mem, c, now).value.log[|mem.log|], c)
  {
    hide Inv, RecordIdentity, ValidRecord, HeadOk, Gapless, Stamped, MemoryRowId, StateValid, LogStored, ContentError,
         SetRecord;
    InvHeld(d);
    PutEntryOk(d, mem, c, now);
    StampedRecord(c.record, c.target, now);
  }

  /** A response that passes is about this request: the record differs from the requested one at
      most in its time, and the actor owned or wrote the branch. */
  lemma PutResponseMeans(e: Entry, c: PutCommand)
    requires ValidPutResult(e, c) && CapturedPut(c)
    ensures e.mutation.PutRecord? && e.result.memoryRevision >= 1
    ensures e.result.head.target == c.target && e.result.head.placement == c.placement
    ensures forall k :: k != CREATED_AT ==> SameField(Lookup(e.mutation.record, k), Lookup(c.record, k))
    ensures var b := e.result.head.branch;
            b.ownerAccountId == Some(c.actorAccountId) || b.writerAccountId == Some(c.actorAccountId)
  {
    hide RecordIntent, SameField, Lookup, Wf;
    RecordIntentDecides(e.mutation.record, c.record);
  }

  /** And every published deletion. */
  lemma DeleteResponseValid(d: Doc, mem: Memory, c: DeleteCommand, now: int)
    requires Inv(d) && d.head.placement.routingVersion == 1 && 0 <= mem.revision
    requires c.actorAccountId != [] && c.target == d.head.target && DeleteMemory(d, mem, c, now).Ok?
    ensures ValidDeleteResult(DeleteMemory(d, mem, c, now).value.log[|mem.log|], c)
  {
    hide Inv, HeadOk, Gapless, MemoryRowId, StateValid, LogStored, ContentError, RemoveRecords;
    InvHeld(d);
    DeleteEntryOk(d, mem, c, now);
  }

  lemma DeleteResponseMeans(e: Entry, c: DeleteCommand)
    requires ValidDeleteResult(e, c)
    ensures e.mutation.DeleteRecord? && e.mutation.recordId == c.recordId && e.result.memoryRevision >= 1
    ensures e.result.head.target == c.target && e.result.head.placement == c.placement
    ensures var b := e.result.head.branch;
            b.ownerAccountId == Some(c.actorAccountId) || b.writerAccountId == Some(c.actorAccountId)
  {
  }

  lemma PutKeepsMemory(d: Doc, mem: Memory, command: PutCommand, now: int)
    requires Inv(d) && d.head.placement.routingVersion == 1 && MemoryInv(d, mem)
    requires CapturedPut(command) && command.target == d.head.target && PutMemory(d, mem, command, now).Ok?
    ensures MemoryInv(d, PutMemory(d, mem, command, now).value)
  {
    hide Inv, RecordIdentity, ValidRecord, ValidResult, HeadOk, Gapless, Stamped, StampedAt, MemoryRowId, IntentOf,
         StateValid, LogStored, ContentError, LogOk, EntryOk, Replayed, Table, SetRecord, RecordStamped,
         DistinctRecords, CapturedPut, Mutate;
    InvHeld(d);
    assert command.placement == d.head.placement;
    var e, r := PreparePut(command, d.head, mem.revision, now).value, Stamped(command.record, now);
    PutEntryOk(d, mem, command, now);
    LogAppend(d, mem, e);
    ReplayedAppend(map[], mem.log, e);
    SetTable(mem.records, r);
    CapturedRecord(command, now);
    MutatePut(Table(mem.records), r);
    forall i | 0 <= i < |SetRecord(mem.records, r)|
      ensures var s := SetRecord(mem.records, r)[i]; ValidRecord(s, d.head.target) && RecordStamped(s)
    {
      SetMember(mem.records, r, i);
    }
  }

  lemma MutatePut(m: map<Text, Json>, r: Json)
    ensures Mutate(m, PutRecord(r)) == m[RecordIdentity(r) := r]
  {
  }

  lemma CapturedRecord(command: PutCommand, now: int)
    requires CapturedPut(command) && 0 <= now <= MAX_SAFE
    ensures ValidRecord(Stamped(command.record, now), command.target) && RecordStamped(Stamped(command.record, now))
  {
    hide ValidRecord, Stamped;
    StampedRecord(command.record, command.target, now);
  }

  lemma SetMember(records: seq<Json>, r: Json, i: nat)
    requires i < |SetRecord(records, r)|
    ensures SetRecord(records, r)[i] == r || (i < |records| && SetRecord(records, r)[i] == records[i])
  {
    hide RecordIdentity, IndexOf;
  }

  lemma DeleteKeepsMemory(d: Doc, mem: Memory, command: DeleteCommand, now: int)
    requires Inv(d) && d.head.placement.routingVersion == 1 && MemoryInv(d, mem)
    requires command.actorAccountId != [] && command.target == d.head.target && DeleteMemory(d, mem, command, now).Ok?
    ensures MemoryInv(d, DeleteMemory(d, mem, command, now).value)
  {
    hide Inv, RecordIdentity, ValidRecord, ValidResult, HeadOk, Gapless, MemoryRowId, IntentOf, StateValid, LogStored,
         ContentError, LogOk, EntryOk, Replayed, Table, RemoveRecords, RecordStamped, DistinctRecords, Mutate;
    InvHeld(d);
    assert command.placement == d.head.placement;
    var e := PrepareDelete(command, d.head, mem.revision, now).value;
    DeleteEntryOk(d, mem, command, now);
    LogAppend(d, mem, e);
    ReplayedAppend(map[], mem.log, e);
    RemoveTable(mem.records, command.recordId);
    var rest := RemoveRecords(mem.records, command.recordId);
    forall i | 0 <= i < |rest| ensures ValidRecord(rest[i], d.head.target) && RecordStamped(rest[i]) {
      assert rest[i] in mem.records;
      var k :| 0 <= k < |mem.records| && mem.records[k] == rest[i];
    }
  }

  /** The memory row ids of a branch name its revisions. */
  lemma MemoryRowIdDecides(t: Target, u: Target, p: Placement, q: Placement, a: int, b: int)
    ensures MemoryRowId(t, p, a) == MemoryRowId(u, q, b) <==> t == u && p == q && a == b
  {
    hide U, IntJson, TupleText, Wf;
    var x, y := MemoryRowParts(t, p, a), MemoryRowParts(u, q, b);
    IntJsonDecides(p.routingVersion, q.routingVersion);
    IntJsonDecides(p.generation, q.generation);
    IntJsonDecides(a, b);
    RowPartsPlain(t, p, a);
    RowPartsPlain(u, q, b);
    TupleTextDecides(x, y);
    assert x[1] == JStr(t.rootDropId) && x[2] == JStr(t.branchId);
    assert x[3] == IntJson(p.routingVersion) && x[4] == IntJson(p.generation) && x[5] == IntJson(a);
    assert y[1] == JStr(u.rootDropId) && y[2] == JStr(u.branchId);
    assert y[3] == IntJson(q.routingVersion) && y[4] == IntJson(q.generation) && y[5] == IntJson(b);
  }

  lemma RowPartsPlain(t: Target, p: Placement, a: int)
    ensures forall i :: 0 <= i < 6 ==> PlainPart(MemoryRowParts(t, p, a)[i])
  {
    IntJsonDecides(p.routingVersion, a);
    IntJsonDecides(p.generation, a);
    IntJsonDecides(a, a);
  }
}
