/** queryNullMemRecords and validateNullMemQueryResult of shared/drop/branch-nullmem.ts. */
module NullMemQuery {
  import opened Wrappers
  import opened JsText
  import opened JsonNumber
  import opened Json
  import opened JsonCanonical
  import opened JsonEdit
  import opened BranchState
  import opened Timeline
  import opened Selection
  import opened NullMem
  import opened NullMemCheck
  import opened NullMemState

  const LABELS := U("labels")
  const PRIORITY := U("priority")

  datatype Query = Query(kind: Option<Text>, q: Option<Text>, labels: Option<seq<Text>>, procedureId: Option<Text>,
                         limit: int)

  /** captureNullMemSelection */
  predicate QueryOk(query: Query) {
    && IsSafe(query.limit) && 1 <= query.limit <= 100
    && (query.kind.Some? ==> query.kind.value in {FACT, PROCEDURE, CAPABILITY})
  }

  /** What is taken as given about text and ranking: lower casing, the searched text of a record,
      the rounding of a sum of two numbers and a locale order of ids. */
  datatype Ranking = Ranking(
    lower: Text -> Text, text: Json -> Text, round: real -> real, locale: (Text, Text) -> int)

  // Filters --------------------------------------------------------------------------------------

  predicate IsWordUnit(u: Unit) { 97 <= u < 123 || 48 <= u < 58 }

  /** The runs of a-z and 0-9 that are longer than one unit; `run` is the one being read. */
  function Tokens(t: Text, run: Text): seq<Text> {
    if t == [] then (if |run| > 1 then [run] else [])
    else if IsWordUnit(t[0]) then Tokens(t[1..], run + [t[0]])
    else (if |run| > 1 then [run] else []) + Tokens(t[1..], [])
  }

  function TokensOf(query: Query, rk: Ranking): seq<Text> {
    if query.q.None? then [] else Tokens(rk.lower(query.q.value), [])
  }

  predicate OccursAt(text: Text, token: Text, i: nat) { i + |token| <= |text| && text[i..i + |token|] == token }

  predicate Includes(text: Text, token: Text) { exists i :: 0 <= i <= |text| && OccursAt(text, token, i) }

  predicate HasLabel(labels: Items, wanted: Text) {
    labels.ICons? && (labels.head == JStr(wanted) || HasLabel(labels.tail, wanted))
  }

  predicate Keeps(query: Query, rk: Ranking, r: Json) {
    && (query.kind.Some? ==> TextAt(r, KIND) == query.kind.value)
    && (query.procedureId.Some? ==> TextAt(r, KIND) == PROCEDURE && TextAt(r, RECORD_ID) == query.procedureId.value)
    && (query.labels.Some? ==>
          forall wanted :: wanted in query.labels.value ==>
            Lookup(r, LABELS).Some? && Lookup(r, LABELS).value.JArr? && HasLabel(Lookup(r, LABELS).value.items, wanted))
    && (forall token :: token in TokensOf(query, rk) ==> Includes(rk.lower(rk.text(r)), token))
  }

  // Order ----------------------------------------------------------------------------------------

  /** A number property, 0 when there is none. */
  function NumberAt(r: Json, k: Text): real {
    var v := Lookup(r, k);
    if v.Some? && v.value.JNum? then RealOf(v.value.n) else 0.0
  }

  /** The matched tokens and the priority, added and rounded. */
  function Score(rk: Ranking, n: nat, r: Json): real { rk.round(n as real + NumberAt(r, PRIORITY)) }

  /** Higher score first, then newer first, then by id. */
  function Compare(rk: Ranking, n: nat, a: Json, b: Json): int {
    var x, y := Score(rk, n, a), Score(rk, n, b);
    var s, t := NumberAt(a, CREATED_AT), NumberAt(b, CREATED_AT);
    if x != y then (if y > x then 1 else -1)
    else if s != t then (if t > s then 1 else -1)
    else rk.locale(TextAt(a, RECORD_ID), TextAt(b, RECORD_ID))
  }

  function Keeper(query: Query, rk: Ranking): Json -> bool { r => Keeps(query, rk, r) }

  function Comparer(rk: Ranking, n: nat): (Json, Json) -> int { (a, b) => Compare(rk, n, a, b) }

  lemma CompareOrders(rk: Ranking, n: nat)
    requires TotalPreorder(rk.locale)
    ensures TotalPreorder(Comparer(rk, n))
  {
    hide TextAt, NumberAt;
    var cmp := Comparer(rk, n);
    forall a, b, c ensures Transitive(cmp, a, b, c) {
      assert Transitive(rk.locale, TextAt(a, RECORD_ID), TextAt(b, RECORD_ID), TextAt(c, RECORD_ID));
    }
  }

  /** The first `limit` of the stable sort of the records that pass every filter. */
  ghost predicate IsAnswer(records: seq<Json>, query: Query, rk: Ranking, r: seq<Json>)
    requires 0 <= query.limit
  {
    IsSelection(records, Keeper(query, rk), Comparer(rk, |TokensOf(query, rk)|), query.limit, r)
  }

  /** queryNullMemRecords */
  method QueryRecords(records: seq<Json>, query: Query, rk: Ranking) returns (r: Result<seq<Json>>)
    requires TotalPreorder(rk.locale)
    ensures r.Ok? <==> 1 <= query.limit <= 100
                       && (query.kind.Some? ==> query.kind.value in {U("fact"), U("procedure"), U("capability")})
    ensures r.Ok? ==> IsAnswer(records, query, rk, r.value)
  {
    hide Keeper, Comparer, TokensOf, IsSelection, TotalPreorder, U;
    if !QueryOk(query) { return Err(InvalidCommand); }
    var n := |TokensOf(query, rk)|;
    CompareOrders(rk, n);
    var selected := Select(records, Keeper(query, rk), Comparer(rk, n), query.limit);
    r := Ok(selected);
  }

  // Validating an answer -------------------------------------------------------------------------

  datatype QueryResult = QueryResult(result: MemoryResult, records: seq<Json>)

  /** The answer is in bounds, has valid distinct stamped records, and selecting from it again
      gives it back. */
  ghost predicate Passes(v: QueryResult, target: Target, placement: Placement, query: Query, rk: Ranking) {
    && ValidResult(v.result, target, placement)
    && QueryOk(query) && |v.records| <= query.limit && (v.result.memoryRevision == 0 ==> v.records == [])
    && AllValid(v.records, target) && DistinctRecords(v.records)
    && (forall i :: 0 <= i < |v.records| ==> RecordStamped(v.records[i]))
    && exists again :: IsAnswer(v.records, query, rk, again) && Same(JArr(Tuple(again)), JArr(Tuple(v.records)))
  }

  /** validateNullMemQueryResult */
  method ValidateQueryResult(v: QueryResult, target: Target, placement: Placement, query: Query, rk: Ranking)
    returns (ok: bool)
    requires TotalPreorder(rk.locale)
    ensures ok <==> Passes(v, target, placement, query, rk)
  {
    hide ValidResult, AllValid, DistinctRecords, TotalPreorder, IsAnswer, Same, Canonical, Tuple, Table, ValidTable,
         ValidRecord;
    if !ValidResult(v.result, target, placement) { return false; }
    if |v.records| > query.limit || (v.result.memoryRevision == 0 && v.records != []) { return false; }
    var expected;
    ok, expected := CheckBaseline(target, v.records);
    if !ok { return; }
    for i := 0 to |v.records|
      invariant forall k :: 0 <= k < i ==> RecordStamped(v.records[k])
    {
      if !IsNat(Lookup(v.records[i], CREATED_AT)) { return false; }
    }
    var again := QueryRecords(v.records, query, rk);
    if again.Err? { return false; }
    ok := Canonical(JArr(Tuple(again.value))) == Canonical(JArr(Tuple(v.records)));
    AnswerUnique(v.records, query, rk, again.value);
    AnswerComparable(v.records, target, query, rk, again.value);
  }

  lemma AnswerUnique(records: seq<Json>, query: Query, rk: Ranking, r: seq<Json>)
    requires TotalPreorder(rk.locale) && 0 <= query.limit && IsAnswer(records, query, rk, r)
    ensures forall s :: IsAnswer(records, query, rk, s) ==> s == r
  {
    hide Keeper, Comparer, TokensOf, IsSelection, TotalPreorder;
    var n := |TokensOf(query, rk)|;
    CompareOrders(rk, n);
    forall s | IsAnswer(records, query, rk, s) ensures s == r {
      SelectionUnique(records, Keeper(query, rk), Comparer(rk, n), query.limit, s, r);
    }
  }

  lemma AnswerComparable(records: seq<Json>, target: Target, query: Query, rk: Ranking, r: seq<Json>)
    requires TotalPreorder(rk.locale) && 0 <= query.limit && IsAnswer(records, query, rk, r)
             && AllValid(records, target)
    ensures Canonical(JArr(Tuple(r))) == Canonical(JArr(Tuple(records))) <==> Same(JArr(Tuple(r)), JArr(Tuple(records)))
  {
    hide Keeper, Comparer, TokensOf, IsSelection, TotalPreorder, ValidRecord, Canonical, Same, Tuple, Wf;
    AnswerWf(records, target, query, rk, r);
    RecordsWf(records, target);
    RecordsWf(r, target);
    CanonicalDecides(JArr(Tuple(r)), JArr(Tuple(records)));
  }

  lemma {:induction false} RecordsWf(records: seq<Json>, target: Target)
    requires AllValid(records, target)
    ensures Wf(JArr(Tuple(records)))
    decreases |records|
  {
    if records != [] {
      assert ValidRecord(records[0], target);
      RecordsWf(records[1..], target);
    }
  }

  /** An answer is taken from the records: valid, distinct, within the limit and its own answer. */
  lemma AnswerWf(records: seq<Json>, target: Target, query: Query, rk: Ranking, r: seq<Json>)
    requires TotalPreorder(rk.locale) && 0 <= query.limit && IsAnswer(records, query, rk, r)
             && AllValid(records, target)
    ensures AllValid(r, target) && |r| <= query.limit && IsAnswer(r, query, rk, r)
    ensures DistinctRecords(records) ==> DistinctRecords(r)
    ensures forall x :: x in r ==> x in records
  {
    hide Keeper, Comparer, TokensOf, IsSelection, TotalPreorder, ValidRecord, RecordIdentity;
    var keep, cmp := Keeper(query, rk), Comparer(rk, |TokensOf(query, rk)|);
    CompareOrders(rk, |TokensOf(query, rk)|);
    SelectionIdempotent(records, keep, cmp, query.limit, r);
    var places := SelectionPlaces(records, keep, cmp, query.limit, r);
    if DistinctRecords(records) {
      forall i, j | 0 <= i < j < |r| ensures RecordIdentity(r[i]) != RecordIdentity(r[j]) {
        assert places[i] < places[j] || places[j] < places[i];
      }
    }
  }

  /** The answer of any accepted state passes exactly when it is empty or something was ever
      put or deleted, and its records carry assigned times. */
  lemma AnswerPassesExactly(head: Head, mem: Memory, base: MemoryBaseline, query: Query, rk: Ranking, r: seq<Json>)
    requires TotalPreorder(rk.locale) && StateValid(head, mem, base) && QueryOk(query)
             && IsAnswer(mem.records, query, rk, r)
    ensures Passes(QueryResult(MemoryResult(head.target, head.placement, head, mem.revision), r), head.target,
                   head.placement, query, rk)
            <==> (mem.revision > 0 || r == []) && forall i :: 0 <= i < |r| ==> RecordStamped(r[i])
  {
    hide ValidResult, TotalPreorder, IsAnswer, Same, Tuple, Table, Replayed, LogOk, ValidRecord, RecordStamped,
         DistinctRecords, AllValid;
    AnswerWf(mem.records, head.target, query, rk, r);
    RecordsWf(r, head.target);
    SameRefl(JArr(Tuple(r)));
  }

  /** From an empty baseline every answer passes, in every reachable state. */
  lemma ReachableAnswersPass(d: Doc, mem: Memory, query: Query, rk: Ranking, r: seq<Json>)
    requires TotalPreorder(rk.locale) && Inv(d) && MemoryInv(d, mem) && QueryOk(query)
             && IsAnswer(mem.records, query, rk, r)
    ensures Passes(QueryResult(MemoryResult(d.head.target, d.head.placement, d.head, mem.revision), r),
                   d.head.target, d.head.placement, query, rk)
  {
    hide Inv, HeadOk, Gapless, TotalPreorder, IsAnswer, Table, LogOk, ValidRecord, RecordStamped, DistinctRecords,
         StateValid, LogStored, Passes;
    InvHeld(d);
    CheckerAccepts(d, mem);
    AnswerPassesExactly(d.head, mem, EMPTY, query, rk, r);
    AnswerWf(mem.records, d.head.target, query, rk, r);
    forall i | 0 <= i < |r| ensures RecordStamped(r[i]) { assert r[i] in mem.records; }
    assert r == [] || r[0] in r;
    if mem.revision == 0 { NothingYet(mem); }
  }

  lemma NothingYet(mem: Memory)
    requires |mem.log| == 0 && DistinctRecords(mem.records) && Table(mem.records) == Replayed(map[], mem.log)
    ensures mem.records == []
  {
    hide RecordIdentity, Table;
    TableKeys(mem.records);
    assert mem.records == [] || RecordIdentity(mem.records[0]) in Table(mem.records);
  }

  /** A baseline with a record at revision zero is an accepted state, but no answer that shows the
      record is: the answer check refuses every non-empty answer at revision zero. */
  lemma BaselineAnswerRefused(head: Head, x: Json, query: Query, rk: Ranking)
    requires HeadOk(head) && ValidRecord(x, head.target) && QueryOk(query) && Keeps(query, rk, x)
    ensures StateValid(head, Memory(0, [x], []), MemoryBaseline(0, [x])) && IsAnswer([x], query, rk, [x])
    ensures !Passes(QueryResult(MemoryResult(head.target, head.placement, head, 0), [x]), head.target, head.placement,
                    query, rk)
  {
    hide HeadOk, ValidRecord, ValidResult, Keeps, RecordIdentity, Same, TokensOf, Compare;
    HeadResult(head, 0);
    var m := Table([x]);
    assert [x][..0] == [];
    assert Table([]) == map[] && m == map[RecordIdentity(x) := x];
    RecordSame(x, head.target);
    assert RecordsMatch(head.target, [x], m);
    AlreadySelected([x], Keeper(query, rk), Comparer(rk, |TokensOf(query, rk)|), query.limit);
  }

  /** Such a record. */
  function Note(target: Target): Json {
    JObj(MCons(KIND, JStr(FACT), MCons(RECORD_ID, JStr(U("note")), MCons(ROOT, JStr(target.rootDropId),
         MCons(BRANCH, JStr(target.branchId), MCons(CREATED_AT, JNum(ZERO), MNil))))))
  }

  lemma NoteKeys()
    ensures KIND != RECORD_ID && KIND != ROOT && KIND != BRANCH && KIND != CREATED_AT && RECORD_ID != ROOT
            && RECORD_ID != BRANCH
    ensures RECORD_ID != CREATED_AT && ROOT != BRANCH && ROOT != CREATED_AT && BRANCH != CREATED_AT
            && FACT != CAPABILITY
  {
    assert |KIND| == 4 && |RECORD_ID| == 8 && |ROOT| == 10 && |BRANCH| == 8 && |CREATED_AT| == 9;
    assert RECORD_ID[0] == 114 && BRANCH[0] == 98 && |FACT| == 4 && |CAPABILITY| == 10;
  }

  lemma NoteRefused(head: Head, rk: Ranking)
    requires HeadOk(head)
    ensures var query := Query(None, None, None, None, 1); var x := Note(head.target);
            && StateValid(head, Memory(0, [x], []), MemoryBaseline(0, [x])) && IsAnswer([x], query, rk, [x])
            && !Passes(QueryResult(MemoryResult(head.target, head.placement, head, 0), [x]), head.target,
                       head.placement, query, rk)
  {
    hide U, StateValid, IsAnswer, Passes;
    NoteKeys();
    var x := Note(head.target);
    NoteFields(head.target);
    assert ValidRecord(x, head.target);
    BaselineAnswerRefused(head, x, Query(None, None, None, None, 1), rk);
  }

  lemma NoteFields(target: Target)
    ensures Wf(Note(target)) && ToMap(Note(target).members) ==
              map[KIND := JStr(FACT), RECORD_ID := JStr(U("note")), ROOT := JStr(target.rootDropId),
                  BRANCH := JStr(target.branchId), CREATED_AT := JNum(ZERO)]
  {
    hide U, ToMap, WfMembers;
    NoteKeys();
    EmptyObject();
    FrontMember(CREATED_AT, JNum(ZERO), MNil);
    var m5 := MCons(CREATED_AT, JNum(ZERO), MNil);
    FrontMember(BRANCH, JStr(target.branchId), m5);
    var m4 := MCons(BRANCH, JStr(target.branchId), m5);
    FrontMember(ROOT, JStr(target.rootDropId), m4);
    var m3 := MCons(ROOT, JStr(target.rootDropId), m4);
    FrontMember(RECORD_ID, JStr(U("note")), m3);
    FrontMember(KIND, JStr(FACT), MCons(RECORD_ID, JStr(U("note")), m3));
  }
}
