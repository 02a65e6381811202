/** validateNullMemState: the checker decides StateValid, and a valid state has lost, added,
    duplicated or altered nothing. */
module NullMemCheck {
  import opened Wrappers
  import opened JsText
  import opened Json
  import opened JsonCanonical
  import opened BranchState
  import opened NullMem

  ghost predicate ValidTable(target: Target, expected: map<Text, Json>) {
    forall id :: id in expected ==> ValidRecord(expected[id], target) && RecordIdentity(expected[id]) == id
  }

  // The baseline -----------------------------------------------------------------------------

  lemma {:induction false} TableKeys(records: seq<Json>)
    ensures forall id :: id in Table(records) <==> exists i :: 0 <= i < |records| && RecordIdentity(records[i]) == id
    ensures forall id :: id in Table(records) ==>
              Table(records)[id] in records && RecordIdentity(Table(records)[id]) == id
    decreases |records|
  {
    hide RecordIdentity;
    if records != [] {
      var front, last := records[..|records| - 1], records[|records| - 1];
      TableKeys(front);
      assert forall i :: 0 <= i < |front| ==> front[i] == records[i];
      forall id | id in Table(records) ensures exists i :: 0 <= i < |records| && RecordIdentity(records[i]) == id {
        if id in Table(front) {
          var i :| 0 <= i < |front| && RecordIdentity(front[i]) == id;
          assert RecordIdentity(records[i]) == id;
        } else {
          assert RecordIdentity(records[|records| - 1]) == id;
        }
      }
      forall i | 0 <= i < |records| ensures RecordIdentity(records[i]) in Table(records) {
        if i < |front| { assert RecordIdentity(front[i]) in Table(front); }
      }
    }
  }

  method CheckBaseline(target: Target, records: seq<Json>) returns (ok: bool, expected: map<Text, Json>)
    ensures ok <==> AllValid(records, target) && DistinctRecords(records)
    ensures ok ==> expected == Table(records) && ValidTable(target, expected)
  {
    hide ValidRecord, RecordIdentity;
    expected := map[];
    for i := 0 to |records|
      invariant AllValid(records[..i], target) && DistinctRecords(records[..i])
      invariant expected == Table(records[..i])
    {
      var record := records[i];
      assert records[..i + 1][..i] == records[..i] && records[..i + 1][i] == record;
      TableKeys(records[..i]);
      if !ValidRecord(record, target) { return false, map[]; }
      if RecordIdentity(record) in expected {
        var k :| 0 <= k < i && RecordIdentity(records[..i][k]) == RecordIdentity(record);
        assert records[..i][k] == records[k];
        return false, map[];
      }
      NextDistinct(records, i);
      expected := expected[RecordIdentity(record) := record];
    }
    assert records[..|records|] == records;
    TableKeys(records);
    ok := true;
  }

  lemma NextDistinct(records: seq<Json>, i: nat)
    requires i < |records| && DistinctRecords(records[..i]) && RecordIdentity(records[i]) !in Table(records[..i])
    ensures DistinctRecords(records[..i + 1])
  {
    hide RecordIdentity, Table;
    TableKeys(records[..i]);
    var a, b := records[..i], records[..i + 1];
    forall j, k | 0 <= j < k < |b| ensures RecordIdentity(b[j]) != RecordIdentity(b[k]) {
      assert b[j] == a[j];
      if k < i { assert b[k] == a[k]; }
    }
  }

  // The log ------------------------------------------------------------------------------------

  /** The checker's running previous version. */
  ghost function Previous(log: seq<Entry>, i: nat): (int, int)
    requires i <= |log|
  {
    if i == 0 then (0, -1) else (log[i - 1].result.head.version.snapshotId, log[i - 1].result.head.version.eventSeq)
  }

  method CheckLog(head: Head, log: seq<Entry>, base: int, start: map<Text, Json>)
    returns (ok: bool, expected: map<Text, Json>)
    requires ValidTable(head.target, start)
    ensures ok <==> LogOk(head, log, base)
    ensures ok ==> expected == Replayed(start, log) && ValidTable(head.target, expected)
  {
    hide EntryOk, Mutate, ValidTable;
    expected := start;
    var previousSnapshot, previousEvent := 0, -1;
    for i := 0 to |log|
      invariant LogOk(head, log[..i], base) && (previousSnapshot, previousEvent) == Previous(log, i)
      invariant expected == Replayed(start, log[..i]) && ValidTable(head.target, expected)
    {
      var e := log[i];
      assert log[..i + 1][..i] == log[..i] && log[..i + 1][i] == e;
      if !EntryOk(head, e, base + i + 1) { return false, map[]; }
      var version := e.result.head.version;
      EntryAfterStart(head, e, base + i + 1);
      if version.snapshotId < previousSnapshot || version.eventSeq < previousEvent { return false, map[]; }
      previousSnapshot, previousEvent := version.snapshotId, version.eventSeq;
      LogGrows(head, log, base, i);
      MutateValid(head, e, base + i + 1, expected);
      expected := Mutate(expected, e.mutation);
    }
    assert log[..|log|] == log;
    ok := true;
  }

  lemma EntryAfterStart(head: Head, e: Entry, revision: int)
    requires EntryOk(head, e, revision)
    ensures 0 <= e.result.head.version.snapshotId && -1 <= e.result.head.version.eventSeq
  {
  }

  lemma LogGrows(head: Head, log: seq<Entry>, base: int, i: nat)
    requires i < |log| && LogOk(head, log[..i], base) && EntryOk(head, log[i], base + i + 1)
    requires i > 0 ==> NotBefore(log[i - 1].result.head.version, log[i].result.head.version)
    ensures LogOk(head, log[..i + 1], base)
  {
    hide EntryOk;
    var a, b := log[..i], log[..i + 1];
    forall k | 0 <= k < |b| ensures EntryOk(head, b[k], base + k + 1) {
      if k < i { assert a[k] == b[k]; }
    }
    forall k | 0 < k < |b| ensures NotBefore(b[k - 1].result.head.version, b[k].result.head.version) {
      if k < i { assert a[k - 1] == b[k - 1] && a[k] == b[k]; }
    }
  }

  lemma MutateValid(head: Head, e: Entry, revision: int, expected: map<Text, Json>)
    requires EntryOk(head, e, revision) && ValidTable(head.target, expected)
    ensures ValidTable(head.target, Mutate(expected, e.mutation))
  {
    hide ValidRecord, RecordIdentity, ValidResult, StampedAt, MemoryRowId, TextAt, IntentOf;
  }

  // The live records ---------------------------------------------------------------------------

  ghost predicate Unmatched(records: seq<Json>, i: nat, expected: map<Text, Json>, left: map<Text, Json>)
    requires i <= |records|
  {
    && (forall id :: id in left ==> id in expected && left[id] == expected[id])
    && (forall id :: id in expected ==> (id in left <==> forall k :: 0 <= k < i ==> RecordIdentity(records[k]) != id))
  }

  method MatchRecords(target: Target, records: seq<Json>, expected: map<Text, Json>) returns (ok: bool)
    requires ValidTable(target, expected)
    ensures ok <==> RecordsMatch(target, records, expected)
  {
    hide ValidRecord, RecordIdentity, Same, Canonical;
    if |expected| != |records| { return false; }
    var left := expected;
    for i := 0 to |records|
      invariant Unmatched(records, i, expected, left)
      invariant DistinctRecords(records[..i]) && AllValid(records[..i], target)
      invariant forall k :: 0 <= k < i ==> Matches(expected, records[k])
    {
      var record := records[i];
      assert records[..i + 1][..i] == records[..i] && records[..i + 1][i] == record;
      if !ValidRecord(record, target) { return false; }
      var id := RecordIdentity(record);
      if id !in left {
        NotMatched(target, records, i, expected, left);
        return false;
      }
      SameByCanonical(target, expected[id], record);
      if Canonical(left[id]) != Canonical(record) { return false; }
      MatchedMore(records, i, expected, left);
      left := map k | k in left && k != id :: left[k];
    }
    assert records[..|records|] == records;
    ok := true;
  }

  ghost predicate Matches(expected: map<Text, Json>, record: Json) {
    RecordIdentity(record) in expected && Same(expected[RecordIdentity(record)], record)
  }

  lemma SameByCanonical(target: Target, a: Json, b: Json)
    requires ValidRecord(a, target) && ValidRecord(b, target)
    ensures Canonical(a) == Canonical(b) <==> Same(a, b)
  {
    CanonicalDecides(a, b);
  }

  lemma NotMatched(target: Target, records: seq<Json>, i: nat, expected: map<Text, Json>, left: map<Text, Json>)
    requires i < |records| && Unmatched(records, i, expected, left) && RecordIdentity(records[i]) !in left
    ensures !RecordsMatch(target, records, expected)
  {
    hide ValidRecord, RecordIdentity, Same;
    var id := RecordIdentity(records[i]);
    if id in expected {
      var k :| 0 <= k < i && RecordIdentity(records[k]) == id;
    }
  }

  lemma MatchedMore(records: seq<Json>, i: nat, expected: map<Text, Json>, left: map<Text, Json>)
    requires i < |records| && Unmatched(records, i, expected, left) && RecordIdentity(records[i]) in left
    requires DistinctRecords(records[..i])
    ensures Unmatched(records, i + 1, expected, map k | k in left && k != RecordIdentity(records[i]) :: left[k])
    ensures DistinctRecords(records[..i + 1])
  {
    hide RecordIdentity;
    var a, b := records[..i], records[..i + 1];
    assert b[i] == records[i];
    forall j, k | 0 <= j < k < |b| ensures RecordIdentity(b[j]) != RecordIdentity(b[k]) {
      assert b[j] == a[j] == records[j];
      if k < i { assert b[k] == a[k]; }
    }
  }

  /** validateNullMemState */
  method ValidateState(head: Head, mem: Memory, base: MemoryBaseline) returns (ok: bool)
    ensures ok <==> StateValid(head, mem, base)
  {
    hide ValidResult, AllValid, DistinctRecords, LogOk, RecordsMatch, Replayed, Table, ValidTable;
    if !ValidResult(MemoryResult(head.target, head.placement, head, mem.revision), head.target,
                    head.placement) { return false; }
    if !IsSafe(base.revision) || base.revision < 0 || base.revision > mem.revision
       || |mem.log| != mem.revision - base.revision {
      return false;
    }
    var expected;
    ok, expected := CheckBaseline(head.target, base.records);
    if !ok { return; }
    ok, expected := CheckLog(head, mem.log, base.revision, expected);
    if !ok { return; }
    ok := MatchRecords(head.target, mem.records, expected);
  }

  // What acceptance means ----------------------------------------------------------------------

  ghost function Identities(records: seq<Json>): set<Text> { set i | 0 <= i < |records| :: RecordIdentity(records[i]) }

  lemma {:induction false} IdentityCount(records: seq<Json>)
    requires DistinctRecords(records)
    ensures |Identities(records)| == |records|
    decreases |records|
  {
    hide RecordIdentity;
    if records != [] {
      var front, last := records[..|records| - 1], records[|records| - 1];
      IdentityCount(front);
      assert forall i :: 0 <= i < |front| ==> front[i] == records[i];
      assert Identities(records) == Identities(front) + {RecordIdentity(last)};
      assert RecordIdentity(last) !in Identities(front);
    }
  }

  /** An accepted state holds every record its log left behind, nothing else, and each of them
      once and unaltered. */
  lemma AcceptedIsReplay(head: Head, mem: Memory, base: MemoryBaseline)
    requires StateValid(head, mem, base)
    ensures var expected := Replayed(Table(base.records), mem.log);
            && Identities(mem.records) == expected.Keys && |mem.records| == |expected|
            && forall i :: 0 <= i < |mem.records| ==>
                 RecordIdentity(mem.records[i]) in expected
                 && Same(expected[RecordIdentity(mem.records[i])], mem.records[i])
  {
    hide RecordIdentity, ValidResult, AllValid, LogOk, Replayed, Table, Same;
    var expected := Replayed(Table(base.records), mem.log);
    IdentityCount(mem.records);
    assert |expected.Keys| == |expected|;
    SameKeys(Identities(mem.records), expected.Keys);
  }

  /** An accepted log is a history of this branch: one entry per revision, made by the owner or the
      writer of the time at a head that the branch had, no later head before an earlier one, each put
      a record of the branch with the entry's own time. */
  lemma AcceptedIsHistory(head: Head, mem: Memory, base: MemoryBaseline, i: nat)
    requires StateValid(head, mem, base) && i < |mem.log|
    ensures var e := mem.log[i]; var b, v := e.result.head.branch, e.result.head.version;
            && e.result.memoryRevision == base.revision + i + 1
            && e.id == MemoryRowId(head.target, head.placement, base.revision + i + 1)
            && e.kind == U("branch.nullmem.v1")
            && e.actorAccountId != []
            && (b.ownerAccountId == Some(e.actorAccountId) || b.writerAccountId == Some(e.actorAccountId))
            && e.result.head.target == head.target && e.result.head.placement == head.placement
            && b.rootDropId == head.target.rootDropId && b.branchId == head.target.branchId
            && b.headSnapshotId == v.snapshotId && b.headEventSeq == v.eventSeq
            && 0 <= v.snapshotId <= v.eventSeq + 1 && (v.snapshotId == 0 ==> v.eventSeq == -1)
            && v.snapshotId <= head.version.snapshotId && v.eventSeq <= head.version.eventSeq
            && (i > 0 ==> mem.log[i - 1].result.head.version.snapshotId <= v.snapshotId
                          && mem.log[i - 1].result.head.version.eventSeq <= v.eventSeq)
            && 0 <= e.createdAt <= MAX_SAFE
            && (e.mutation.PutRecord? ==>
                  && StampedAt(e.mutation.record, e.createdAt) && e.intent == RecordIntent(e.mutation.record)
                  && TextAt(e.mutation.record, U("rootDropId")) == head.target.rootDropId
                  && TextAt(e.mutation.record, U("branchId")) == head.target.branchId
                  && TextAt(e.mutation.record, U("kind")) in {U("fact"), U("procedure")})
            && (!e.mutation.PutRecord? ==>
                  e.mutation.DeleteRecord? && e.intent == Write(JStr(e.mutation.recordId)))
  {
    hide U, RecordIdentity, MemoryRowId, RecordIntent, StampedAt, Replayed, Table, RecordsMatch, AllValid,
         DistinctRecords;
    assert EntryOk(head, mem.log[i], base.revision + i + 1);
  }
}
