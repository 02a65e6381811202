/** The client's check of an append response (shared/drop/diff.ts), and that it passes on the
    response to every successful batch. */
module DiffReceipt {
  import opened Wrappers
  import opened JsText
  import opened Json
  import opened JsonEdit
  import opened BranchState
  import opened BranchBatch
  import opened Timeline
  import opened Submission

  // Reading a parsed response --------------------------------------------------------------

  function Elements(items: Items): seq<Json> {
    if items.INil? then [] else [items.head] + Elements(items.tail)
  }

  predicate IsAcknowledgement(j: Json) {
    && IsText(Lookup(j, U("eventId"))) && IsNat(Lookup(j, U("seq"))) && IsNat(Lookup(j, U("snapshotId")))
    && (Lookup(j, U("status")) == Some(JStr(U("accepted"))) || Lookup(j, U("status")) == Some(JStr(U("duplicate"))))
  }

  function AckId(j: Json): Text
    requires IsAcknowledgement(j)
  {
    Lookup(j, U("eventId")).value.s
  }

  predicate IsAcceptance(j: Json) { Lookup(j, U("status")) == Some(JStr(U("accepted"))) }

  /** isDropDiffAppendResponse */
  predicate IsAppendResponse(j: Json) {
    && IsNat(Lookup(j, U("accepted"))) && IsNat(Lookup(j, U("deduplicated"))) && IsText(Lookup(j, U("branchId")))
    && IsNat(Lookup(j, U("snapshotId"))) && IsNat(Lookup(j, U("totalStored")))
    && Lookup(j, U("acknowledgements")).Some? && Lookup(j, U("acknowledgements")).value.JArr?
    && (forall a :: a in Elements(Lookup(j, U("acknowledgements")).value.items) ==> IsAcknowledgement(a))
  }

  ghost function Acknowledgements(j: Json): (acks: seq<Json>)
    requires IsAppendResponse(j)
    ensures forall i :: 0 <= i < |acks| ==> IsAcknowledgement(acks[i])
  {
    Elements(Lookup(j, U("acknowledgements")).value.items)
  }

  // What a confirmed receipt means -----------------------------------------------------------

  ghost function CountAccepted(acks: seq<Json>): nat {
    if acks == [] then 0
    else CountAccepted(acks[..|acks| - 1]) + (if IsAcceptance(acks[|acks| - 1]) then 1 else 0)
  }

  ghost predicate EachOnce(acks: seq<Json>)
    requires forall i :: 0 <= i < |acks| ==> IsAcknowledgement(acks[i])
  {
    forall i, j :: 0 <= i < j < |acks| ==> AckId(acks[i]) != AckId(acks[j])
  }

  ghost function AckIds(acks: seq<Json>): (ids: set<Text>)
    requires forall i :: 0 <= i < |acks| ==> IsAcknowledgement(acks[i])
    ensures forall id :: id in ids <==> exists i :: 0 <= i < |acks| && AckId(acks[i]) == id
  {
    set i | 0 <= i < |acks| :: AckId(acks[i])
  }

  /** Every submitted id is acknowledged exactly once and nothing else is; the counts cover the
      submission and are not exceeded by the acknowledgements. */
  ghost predicate Confirmed(j: Json, branchId: Option<Text>, eventIds: seq<Text>) {
    && IsAppendResponse(j)
    && (branchId.Some? ==> Lookup(j, U("branchId")) == Some(JStr(branchId.value)))
    && var accepted, deduplicated := NatOf(Lookup(j, U("accepted"))), NatOf(Lookup(j, U("deduplicated")));
       var acks := Acknowledgements(j);
       && accepted + deduplicated == |eventIds|
       && EachOnce(acks)
       && AckIds(acks) == (set id | id in eventIds)
       && CountAccepted(acks) <= accepted && |acks| - CountAccepted(acks) <= deduplicated
  }

  /** To the client: every event it sent has one answer, accepted or duplicate, with a sequence and
      a snapshot; and no answer is about anything else. */
  lemma ConfirmedMeans(j: Json, branchId: Option<Text>, eventIds: seq<Text>, k: nat)
    requires Confirmed(j, branchId, eventIds) && k < |eventIds|
    ensures exists i :: 0 <= i < |Acknowledgements(j)| && AnswersFor(Acknowledgements(j)[i], eventIds[k])
    ensures forall a, b :: 0 <= a < b < |Acknowledgements(j)| && AnswersFor(Acknowledgements(j)[a], eventIds[k]) ==>
              !AnswersFor(Acknowledgements(j)[b], eventIds[k])
    ensures forall i :: 0 <= i < |Acknowledgements(j)| ==>
              exists id :: id in eventIds && AnswersFor(Acknowledgements(j)[i], id)
  {
    hide U, Lookup;
    var acks := Acknowledgements(j);
    assert eventIds[k] in AckIds(acks);
    var i :| 0 <= i < |acks| && AckId(acks[i]) == eventIds[k];
    assert AnswersFor(acks[i], eventIds[k]);
    forall i | 0 <= i < |acks| ensures exists id :: id in eventIds && AnswersFor(acks[i], id) {
      assert AckId(acks[i]) in AckIds(acks);
      assert AnswersFor(acks[i], AckId(acks[i]));
    }
  }

  ghost predicate AnswersFor(a: Json, id: Text) {
    && Lookup(a, U("eventId")) == Some(JStr(id))
    && (Lookup(a, U("status")) == Some(JStr(U("accepted"))) || Lookup(a, U("status")) == Some(JStr(U("duplicate"))))
    && IsNat(Lookup(a, U("seq"))) && IsNat(Lookup(a, U("snapshotId")))
  }

  /** hasConfirmedDropDiffAppendReceipt */
  method HasConfirmedReceipt(value: Json, branchId: Option<Text>, eventIds: seq<Text>) returns (ok: bool)
    ensures ok <==> Confirmed(value, branchId, eventIds)
  {
    if !IsAppendResponse(value) { return false; }
    if branchId.Some? && Lookup(value, U("branchId")) != Some(JStr(branchId.value)) { return false; }
    var accepted, deduplicated := NatOf(Lookup(value, U("accepted"))), NatOf(Lookup(value, U("deduplicated")));
    if accepted + deduplicated != |eventIds| { return false; }
    var complete, acceptances, duplicates := Tally(Elements(Lookup(value, U("acknowledgements")).value.items),
                                                   eventIds);
    ok := complete && acceptances <= accepted && duplicates <= deduplicated;
  }

  /** The loop over the acknowledgements, with its set and its two counters. */
  method Tally(acks: seq<Json>, eventIds: seq<Text>) returns (complete: bool, acceptances: nat, duplicates: nat)
    requires forall i :: 0 <= i < |acks| ==> IsAcknowledgement(acks[i])
    ensures complete <==> EachOnce(acks) && AckIds(acks) == (set id | id in eventIds)
    ensures complete ==> acceptances == CountAccepted(acks) && duplicates == |acks| - CountAccepted(acks)
  {
    hide IsAcknowledgement, IsAcceptance, AckId;
    var expected, acknowledged: set<Text> := set id | id in eventIds, {};
    acceptances, duplicates := 0, 0;
    for i := 0 to |acks|
      invariant acknowledged == AckIds(acks[..i]) && acknowledged <= expected
      invariant EachOnce(acks[..i])
      invariant acceptances == CountAccepted(acks[..i]) && duplicates == i - acceptances
    {
      var ack := acks[i];
      assert acks[..i + 1][..i] == acks[..i] && acks[..i + 1][i] == ack;
      AckIdsAppend(acks, i);
      EachOnceAppend(acks, i);
      if AckId(ack) !in expected || AckId(ack) in acknowledged {
        NotComplete(acks, eventIds, i);
        return false, 0, 0;
      }
      acknowledged := acknowledged + {AckId(ack)};
      if IsAcceptance(ack) { acceptances := acceptances + 1; } else { duplicates := duplicates + 1; }
    }
    assert acks[..|acks|] == acks;
    complete := expected <= acknowledged;
  }

  lemma AckIdsAppend(acks: seq<Json>, i: nat)
    requires i < |acks| && forall k :: 0 <= k < |acks| ==> IsAcknowledgement(acks[k])
    ensures AckIds(acks[..i + 1]) == AckIds(acks[..i]) + {AckId(acks[i])}
    ensures AckIds(acks[..i + 1]) <= AckIds(acks)
  {
    hide IsAcknowledgement, AckId;
    var a, b := acks[..i], acks[..i + 1];
    assert b[i] == acks[i] && forall k :: 0 <= k < i ==> a[k] == acks[k] == b[k];
    forall id | id in AckIds(b) ensures id in AckIds(a) + {AckId(acks[i])} && id in AckIds(acks) {
      var k :| 0 <= k < |b| && AckId(b[k]) == id;
      assert acks[k] == b[k] && (k < i ==> a[k] == b[k]);
    }
    forall id | id in AckIds(a) ensures id in AckIds(b) {
      var k :| 0 <= k < |a| && AckId(a[k]) == id;
      assert b[k] == a[k];
    }
  }

  lemma EachOnceAppend(acks: seq<Json>, i: nat)
    requires i < |acks| && forall k :: 0 <= k < |acks| ==> IsAcknowledgement(acks[k])
    ensures EachOnce(acks[..i + 1]) <==> EachOnce(acks[..i]) && AckId(acks[i]) !in AckIds(acks[..i])
  {
    hide IsAcknowledgement, AckId;
    var a, b := acks[..i], acks[..i + 1];
    assert b[i] == acks[i] && forall k :: 0 <= k < i ==> a[k] == b[k];
    if EachOnce(a) && AckId(acks[i]) !in AckIds(a) {
      assert forall k :: 0 <= k < i ==> AckId(a[k]) in AckIds(a);
    }
  }

  lemma NotComplete(acks: seq<Json>, eventIds: seq<Text>, i: nat)
    requires i < |acks| && forall k :: 0 <= k < |acks| ==> IsAcknowledgement(acks[k])
    requires AckId(acks[i]) !in eventIds || AckId(acks[i]) in AckIds(acks[..i])
    ensures !EachOnce(acks) || AckIds(acks) != (set id | id in eventIds)
  {
    hide IsAcknowledgement, AckId;
    assert AckId(acks[i]) in AckIds(acks);
    if AckId(acks[i]) in AckIds(acks[..i]) {
      var k :| 0 <= k < i && AckId(acks[..i][k]) == AckId(acks[i]);
      assert acks[..i][k] == acks[k];
    }
  }

  // The server's response ----------------------------------------------------------------------

  function AckJson(a: Ack): Json {
    JObj(MCons(U("eventId"), JStr(a.eventId),
               MCons(U("seq"), IntJson(a.seq_), MCons(U("snapshotId"), IntJson(a.snapshotId),
         MCons(U("status"), JStr(if a.status == Accepted then U("accepted") else U("duplicate")), MNil)))))
  }

  function AckItems(acks: seq<Ack>): Items {
    if acks == [] then INil else ICons(AckJson(acks[0]), AckItems(acks[1..]))
  }

  /** The body of a successful append, as the transport builds it from the batch result. */
  function Response(result: BatchResult, branchId: Text): Json {
    var snapshotId := if result.snapshot.Some? then result.snapshot.value.snapshotId else result.branch.headSnapshotId;
    JObj(MCons(U("accepted"), IntJson(|result.acceptedEvents|),
         MCons(U("deduplicated"), IntJson(result.deduplicatedCount),
         MCons(U("branchId"), JStr(branchId),
         MCons(U("snapshotId"), IntJson(snapshotId),
         MCons(U("totalStored"), IntJson(result.totalStored),
         MCons(U("acknowledgements"), JArr(AckItems(result.acknowledgements)), MNil)))))))
  }

  ghost predicate Plain(j: Json) { Wf(j) && FoldZero(j) == j }

  lemma PlainInt(n: int)
    ensures Plain(IntJson(n))
  {
    IntJsonDecides(n, n);
  }

  lemma PlainText(t: Text)
    ensures Plain(JStr(t))
  {
  }

  /** One more property in front. */
  lemma Property(k: Text, v: Json, m: Members)
    requires Plain(v) && Plain(JObj(m)) && k !in ToMap(m)
    ensures Plain(JObj(MCons(k, v, m)))
    ensures forall x :: Lookup(JObj(MCons(k, v, m)), x) == if x == k then Some(v) else Lookup(JObj(m), x)
  {
  }

  lemma AckKeys()
    ensures var e, s, i, t := U("eventId"), U("seq"), U("snapshotId"), U("status");
            e != s && e != i && e != t && s != i && s != t && i != t && U("accepted") != U("duplicate")
  {
    assert |U("eventId")| == 7 && |U("seq")| == 3 && |U("snapshotId")| == 10 && |U("status")| == 6;
    assert U("accepted")[0] == 97 && U("duplicate")[0] == 100;
  }

  lemma AckFields(a: Ack)
    ensures var j := AckJson(a);
            && Plain(j) && Lookup(j, U("eventId")) == Some(JStr(a.eventId))
            && Lookup(j, U("seq")) == Some(IntJson(a.seq_))
            && Lookup(j, U("snapshotId")) == Some(IntJson(a.snapshotId))
            && Lookup(j, U("status")) == Some(JStr(if a.status == Accepted then U("accepted") else U("duplicate")))
  {
    hide U, IntJson, Wf, FoldZero;
    AckKeys();
    PlainInt(a.seq_);
    PlainInt(a.snapshotId);
    PlainText(a.eventId);
    var status := if a.status == Accepted then U("accepted") else U("duplicate");
    PlainText(status);
    PlainEmpty();
    var m4 := MCons(U("status"), JStr(status), MNil);
    Property(U("status"), JStr(status), MNil);
    var m3 := MCons(U("snapshotId"), IntJson(a.snapshotId), m4);
    Property(U("snapshotId"), IntJson(a.snapshotId), m4);
    var m2 := MCons(U("seq"), IntJson(a.seq_), m3);
    Property(U("seq"), IntJson(a.seq_), m3);
    Property(U("eventId"), JStr(a.eventId), m2);
  }

  lemma PlainEmpty()
    ensures Plain(JObj(MNil))
  {
  }

  lemma AckOk(a: Ack)
    requires 0 <= a.seq_ <= MAX_SAFE && 0 <= a.snapshotId <= MAX_SAFE
    ensures var j := AckJson(a);
            IsAcknowledgement(j) && AckId(j) == a.eventId && (IsAcceptance(j) <==> a.status == Accepted)
  {
    AckFields(a);
    AckKeys();
    IntField(a.seq_);
    IntField(a.snapshotId);
    hide U, IntJson, Wf, FoldZero, AckJson, Lookup, IsNat;
  }

  lemma {:induction false} AckItemsElements(acks: seq<Ack>)
    ensures Plain(JArr(AckItems(acks)))
    ensures var es := Elements(AckItems(acks));
            |es| == |acks| && forall i :: 0 <= i < |acks| ==> es[i] == AckJson(acks[i])
    decreases |acks|
  {
    hide AckJson;
    if acks != [] {
      AckFields(acks[0]);
      AckItemsElements(acks[1..]);
      PlainItems(AckJson(acks[0]), AckItems(acks[1..]));
    }
  }

  lemma PlainItems(h: Json, t: Items)
    requires Plain(h) && Plain(JArr(t))
    ensures Plain(JArr(ICons(h, t)))
  {
  }

  lemma ResponseKeys()
    ensures var a, d, b, s, t, k := U("accepted"), U("deduplicated"), U("branchId"), U("snapshotId"), U("totalStored"),
      U("acknowledgements");
            && a != d && a != b && a != s && a != t && a != k && d != b && d != s && d != t && d != k
            && b != s && b != t && b != k && s != t && s != k && t != k
  {
    assert |U("accepted")| == 8 && |U("deduplicated")| == 12 && |U("branchId")| == 8;
    assert |U("snapshotId")| == 10 && |U("totalStored")| == 11 && |U("acknowledgements")| == 16;
    assert U("accepted")[0] == 97 && U("branchId")[0] == 98;
  }

  lemma ResponseFields(result: BatchResult, branchId: Text)
    ensures var j := Response(result, branchId);
            && Plain(j) && Lookup(j, U("accepted")) == Some(IntJson(|result.acceptedEvents|))
            && Lookup(j, U("deduplicated")) == Some(IntJson(result.deduplicatedCount))
            && Lookup(j, U("branchId")) == Some(JStr(branchId))
            && Lookup(j, U("snapshotId")) ==
                 Some(IntJson(if result.snapshot.Some? then result.snapshot.value.snapshotId
                              else result.branch.headSnapshotId))
            && Lookup(j, U("totalStored")) == Some(IntJson(result.totalStored))
            && Lookup(j, U("acknowledgements")) == Some(JArr(AckItems(result.acknowledgements)))
  {
    hide U, IntJson, Wf, FoldZero, AckItems;
    ResponseKeys();
    PlainEmpty();
    AckItemsElements(result.acknowledgements);
    var m6 := MCons(U("acknowledgements"), JArr(AckItems(result.acknowledgements)), MNil);
    Property(U("acknowledgements"), JArr(AckItems(result.acknowledgements)), MNil);
    PlainInt(result.totalStored);
    var m5 := MCons(U("totalStored"), IntJson(result.totalStored), m6);
    Property(U("totalStored"), IntJson(result.totalStored), m6);
    var snapshotId := if result.snapshot.Some? then result.snapshot.value.snapshotId else result.branch.headSnapshotId;
    PlainInt(snapshotId);
    var m4 := MCons(U("snapshotId"), IntJson(snapshotId), m5);
    Property(U("snapshotId"), IntJson(snapshotId), m5);
    PlainText(branchId);
    var m3 := MCons(U("branchId"), JStr(branchId), m4);
    Property(U("branchId"), JStr(branchId), m4);
    PlainInt(result.deduplicatedCount);
    var m2 := MCons(U("deduplicated"), IntJson(result.deduplicatedCount), m3);
    Property(U("deduplicated"), IntJson(result.deduplicatedCount), m3);
    PlainInt(|result.acceptedEvents|);
    Property(U("accepted"), IntJson(|result.acceptedEvents|), m2);
  }

  // What the acknowledgements of a batch add up to -----------------------------------------------

  ghost function CountNew(firsts: seq<Identity>, existing: map<Text, Receipt>): nat {
    if firsts == [] then 0
    else CountNew(firsts[..|firsts| - 1], existing) + (if firsts[|firsts| - 1].event.eventId in existing then 0 else 1)
  }

  lemma {:induction false} CountNewFresh(ids: seq<Identity>, existing: map<Text, Receipt>, n: nat)
    requires n <= |ids|
    ensures CountNew(Firsts(ids, n), existing) == |Fresh(ids, existing, n)| && |Firsts(ids, n)| <= n
  {
    if n > 0 {
      CountNewFresh(ids, existing, n - 1);
      var f := Firsts(ids, n - 1);
      if First(ids, n - 1) {
        var g := f + [ids[n - 1]];
        assert Firsts(ids, n) == g && g[..|g| - 1] == f && g[|g| - 1] == ids[n - 1];
        assert CountNew(g, existing) == CountNew(f, existing) + if ids[n - 1].event.eventId in existing then 0 else 1;
      } else {
        assert Firsts(ids, n) == f;
      }
    }
  }

  lemma {:induction false} CountAcks(js: seq<Json>, firsts: seq<Identity>, existing: map<Text, Receipt>)
    requires |js| == |firsts| && forall i :: 0 <= i < |js| ==>
               (IsAcceptance(js[i]) <==> firsts[i].event.eventId !in existing)
    ensures CountAccepted(js) == CountNew(firsts, existing)
    decreases |js|
  {
    hide IsAcceptance;
    if js != [] { CountAcks(js[..|js| - 1], firsts[..|js| - 1], existing); }
  }

  ghost predicate InRange(a: Ack) { 0 <= a.seq_ <= MAX_SAFE && 0 <= a.snapshotId <= MAX_SAFE }

  /** What a client can rely on in the result of a batch. */
  ghost predicate Accountable(result: BatchResult, ids: seq<Identity>, existing: map<Text, Receipt>) {
    var firsts, snapshotId := Firsts(ids, |ids|),
      if result.snapshot.Some? then result.snapshot.value.snapshotId else result.branch.headSnapshotId;
    && |result.acceptedEvents| == |Fresh(ids, existing, |ids|)|
    && |result.acceptedEvents| + result.deduplicatedCount == |ids|
    && 0 <= result.totalStored <= MAX_SAFE && 0 <= snapshotId <= MAX_SAFE
    && |result.acknowledgements| == |firsts|
    && (forall i :: 0 <= i < |firsts| ==>
          var a := result.acknowledgements[i];
          && InRange(a) && a.eventId == firsts[i].event.eventId
          && (a.status == Accepted <==> a.eventId !in existing))
  }

  lemma AckItemsOk(acks: seq<Ack>)
    requires forall i :: 0 <= i < |acks| ==> InRange(acks[i])
    ensures var js := Elements(AckItems(acks));
            && |js| == |acks|
            && (forall i :: 0 <= i < |js| ==> IsAcknowledgement(js[i]) && AckId(js[i]) == acks[i].eventId
                                              && (IsAcceptance(js[i]) <==> acks[i].status == Accepted))
  {
    AckItemsElements(acks);
    hide IsAcknowledgement, AckId, IsAcceptance, AckItems, Elements, AckJson;
    forall i | 0 <= i < |acks| ensures var j := AckJson(acks[i]);
      IsAcknowledgement(j) && AckId(j) == acks[i].eventId && (IsAcceptance(j) <==> acks[i].status == Accepted)
    {
      AckOk(acks[i]);
    }
  }

  lemma ResponseShape(result: BatchResult, branchId: Text, ids: seq<Identity>, existing: map<Text, Receipt>)
    requires |ids| <= MAX_SAFE && Accountable(result, ids, existing)
    ensures var j := Response(result, branchId);
            && IsAppendResponse(j) && NatOf(Lookup(j, U("accepted"))) == |result.acceptedEvents|
            && NatOf(Lookup(j, U("deduplicated"))) == result.deduplicatedCount
            && Acknowledgements(j) == Elements(AckItems(result.acknowledgements))
  {
    ResponseFields(result, branchId);
    IntField(|result.acceptedEvents|);
    IntField(result.deduplicatedCount);
    IntField(result.totalStored);
    IntField(if result.snapshot.Some? then result.snapshot.value.snapshotId else result.branch.headSnapshotId);
    forall i | 0 <= i < |result.acknowledgements| ensures InRange(result.acknowledgements[i]) { }
    AckItemsOk(result.acknowledgements);
    hide U, IntJson, IsNat, NatOf, Lookup, Response, IsAcknowledgement, AckItems, Elements;
  }

  lemma FirstsAcknowledged(js: seq<Json>, ids: seq<Identity>, existing: map<Text, Receipt>)
    requires var firsts := Firsts(ids, |ids|);
             |js| == |firsts| && forall i :: 0 <= i < |js| ==>
               IsAcknowledgement(js[i]) && AckId(js[i]) == firsts[i].event.eventId
    ensures EachOnce(js) && AckIds(js) == IdSet(ids)
  {
    hide IsAcknowledgement, AckId;
    FirstsDistinct(ids, |ids|);
    FirstsMembers(ids, |ids|);
    assert ids[..|ids|] == ids;
    var firsts := Firsts(ids, |ids|);
    forall id | id in IdSet(ids) ensures id in AckIds(js) {
      var i :| 0 <= i < |firsts| && firsts[i].event.eventId == id;
      assert AckId(js[i]) == id;
    }
    forall id | id in AckIds(js) ensures id in IdSet(ids) {
      var i :| 0 <= i < |js| && AckId(js[i]) == id;
      assert firsts[i] in firsts;
    }
  }

  lemma AccountableConfirms(result: BatchResult, branchId: Text, events: seq<Event>, existing: map<Text, Receipt>)
    requires |events| <= MAX_SAFE && Accountable(result, HashEvents(events), existing)
    ensures Confirmed(Response(result, branchId), Some(branchId), EventIds(events))
    ensures Confirmed(Response(result, branchId), None, EventIds(events))
  {
    var ids := HashEvents(events);
    var js := Elements(AckItems(result.acknowledgements));
    ResponseShape(result, branchId, ids, existing);
    ResponseFields(result, branchId);
    AckItemsOk(result.acknowledgements);
    CountNewFresh(ids, existing, |ids|);
    hide U, IntJson, IsNat, NatOf, Lookup, Response, IsAcknowledgement, AckId, IsAcceptance, AckItems, Elements,
         Firsts, Fresh, InRange;
    FirstsAcknowledged(js, ids, existing);
    CountAcks(js, Firsts(ids, |ids|), existing);
    SubmittedIds(events);
  }

  lemma SubmittedIds(events: seq<Event>)
    ensures IdSet(HashEvents(events)) == (set id | id in EventIds(events))
  {
    var ids := HashEvents(events);
    forall id | id in EventIds(events) ensures id in IdSet(ids) {
      var i :| 0 <= i < |events| && EventIds(events)[i] == id;
      assert ids[i] in ids;
    }
    forall id | id in IdSet(ids) ensures id in EventIds(events) {
      var x :| x in ids && x.event.eventId == id;
      var i :| 0 <= i < |ids| && ids[i] == x;
      assert EventIds(events)[i] == id;
    }
  }

  lemma AddedInRange(d: Doc, command: BatchRecord, accepted: seq<Identity>, rs: seq<Receipt>, id: Text, v: Version)
    requires HeadOk(d.head) && d.head.version.eventSeq + |accepted| + 1 <= MAX_SAFE
    requires rs == ReceiptsFor(command, accepted, d.head.version.eventSeq, v)
             && v.snapshotId == d.head.version.snapshotId + 1
    requires id in ById(rs)
    ensures 0 <= SeqOf(ById(rs)[id]) <= MAX_SAFE && 0 <= ById(rs)[id].version.snapshotId <= MAX_SAFE
  {
    ByIdHas(rs);
    var i :| 0 <= i < |rs| && rs[i] == ById(rs)[id];
  }

  lemma StoredInRange(d: Doc, id: Text)
    requires Inv(d) && id in d.receipts
    ensures 0 <= SeqOf(d.receipts[id]) <= MAX_SAFE && 0 <= d.receipts[id].version.snapshotId <= MAX_SAFE
  {
    var i := SeqOf(d.receipts[id]);
    assert ReceiptOk(d, i);
    assert SnapshotOk(d, d.events[i].snapshotId.value);
  }

  lemma BatchAccountable(d: Doc, command: BatchRecord, committedAt: int)
    requires Inv(d) && BatchAt(d, command, committedAt).Ok?
    ensures Accountable(BatchAt(d, command, committedAt).value.result, HashEvents(command.events), d.receipts)
  {
    hide Inv, Gapless, Firsts, Fresh, Reused, PredecessorsMatch, HashSource, ApplyEvents, Placed, EventIds,
         BatchRowId, InRange, PayloadHash;
    InvHeld(d);
    var ids := HashEvents(command.events);
    var accepted, result := Fresh(ids, d.receipts, |ids|), BatchAt(d, command, committedAt).value.result;
    var rows := Rows(command, accepted, d.head, HeadContent(d), committedAt);
    FirstsCovered(ids, d.receipts, rows.receipts);
    assert result.acknowledgements == Acks(Firsts(ids, |ids|), d.receipts, ById(rows.receipts));
    assert accepted != [] ==> rows.receipts == ReceiptsFor(command, accepted, d.head.version.eventSeq, rows.version);
    forall i | 0 <= i < |result.acknowledgements| ensures InRange(result.acknowledgements[i]) {
      AckInRange(d, command, accepted, rows.receipts, Firsts(ids, |ids|)[i].event.eventId, rows.version);
    }
  }

  lemma AckInRange(d: Doc, command: BatchRecord, accepted: seq<Identity>, rs: seq<Receipt>, id: Text, v: Version)
    requires Inv(d) && (id in d.receipts || id in ById(rs))
    requires rs == [] || (d.head.version.eventSeq + |accepted| + 1 <= MAX_SAFE
                          && v.snapshotId == d.head.version.snapshotId + 1
                          && rs == ReceiptsFor(command, accepted, d.head.version.eventSeq, v))
    ensures InRange(AckFor(id, d.receipts, ById(rs)))
  {
    hide Inv, Gapless, ReceiptsFor;
    InvHeld(d);
    if id in d.receipts {
      StoredInRange(d, id);
    } else {
      AddedInRange(d, command, accepted, rs, id, v);
    }
  }

  /** For every successful batch, repeated ids and old duplicates included, the response the
      client reads back from the wire confirms exactly the submitted events. */
  lemma ClientConfirms(d: Doc, command: BatchRecord, committedAt: int, branchId: Text)
    requires Inv(d) && BatchAt(d, command, committedAt).Ok? && |command.events| <= MAX_SAFE
    ensures var body := Parse(Write(Response(BatchAt(d, command, committedAt).value.result, branchId)));
            && body.Some?
            && Confirmed(body.value, Some(branchId), EventIds(command.events))
            && Confirmed(body.value, None, EventIds(command.events))
  {
    BatchAccountable(d, command, committedAt);
    hide Inv, BatchAt, Accountable, Confirmed;
    var result := BatchAt(d, command, committedAt).value.result;
    AccountableConfirms(result, branchId, command.events, d.receipts);
    ResponseFields(result, branchId);
    ParseWrite(Response(result, branchId));
  }
}
