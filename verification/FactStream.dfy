/** The fact stream of one branch beside its document timeline (shared/drop/branch-runtime-facts.ts
    and appendRuntimeFact of src/server/state-plane/memory-commits.ts). */
module FactStream {
  import opened Wrappers
  import opened JsText
  import opened Json
  import opened JsonCanonical
  import opened JsonEdit
  import opened BranchState
  import opened Timeline
  import opened RuntimeFacts

  datatype FactCommand = FactCommand(target: Target, placement: Placement, actorAccountId: Text, fact: Json)

  datatype FactEvent = FactEvent(rootDropId: Text, branchId: Text, seq_: int, factId: Text, createdAt: int, fact: Json)

  datatype FactReceipt = FactReceipt(identity: Text, payloadHash: Digest, key: Text, event: FactEvent)

  datatype FactRow = FactRow(intent: Text, receipt: FactReceipt)

  /** Rows by identity, and the outbox by id. */
  datatype FactStore = FactStore(rows: map<Text, FactRow>, outbox: map<Text, FactReceipt>)

  datatype FactOutcome = FactOutcome(store: FactStore, appended: bool, receipt: FactReceipt)

  // Capture ------------------------------------------------------------------------------------

  /** fact.metadata = { ...fact.metadata, actorAccountId } */
  function WithActor(f: Json, actor: Text): Json {
    var given := Lookup(f, METADATA);
    if f.JObj?
    then
      var m := if given.Some? && given.value.JObj? then given.value.members else MNil;
      JObj(Put(f.members, METADATA, JObj(Put(m, ACTOR, JStr(actor)))))
    else f
  }

  /** captureRuntimeFactAppend, on the JSON value its object walk accepted */
  function CaptureFact(input: FactCommand): Result<FactCommand> {
    var fact := Parse(Canonical(input.fact));
    if input.actorAccountId == [] || fact.None? || !IsFact(fact.value)
       || Lookup(Source(fact.value), ROOT) != Some(JStr(input.target.rootDropId))
       || Lookup(Source(fact.value), BRANCH) != Some(JStr(input.target.branchId)) then Err(InvalidCommand)
    else Ok(input.(fact := WithActor(fact.value, input.actorAccountId)))
  }

  /** A fact as capture leaves it: in scope, with its authenticated actor. */
  predicate Captured(command: FactCommand) {
    var f := command.fact;
    && IsFact(f) && command.actorAccountId != []
    && Lookup(Source(f), ROOT) == Some(JStr(command.target.rootDropId))
    && Lookup(Source(f), BRANCH) == Some(JStr(command.target.branchId))
    && Lookup(f, METADATA).Some? && Lookup(Lookup(f, METADATA).value, ACTOR) == Some(JStr(command.actorAccountId))
  }

  /** A field of the given metadata. */
  ghost function MetadataAt(f: Json, k: Text): Option<Json> {
    if Lookup(f, METADATA).Some? then Lookup(Lookup(f, METADATA).value, k) else None
  }

  lemma WithActorFields(f: Json, actor: Text)
    requires IsFact(f)
    ensures var g := WithActor(f, actor);
            && Wf(g) && g.JObj? && Lookup(g, METADATA).Some? && Lookup(g, METADATA).value.JObj?
            && Lookup(Lookup(g, METADATA).value, ACTOR) == Some(JStr(actor))
            && (forall k :: k != METADATA ==> Lookup(g, k) == Lookup(f, k))
            && (forall k :: k != ACTOR ==> Lookup(Lookup(g, METADATA).value, k) == MetadataAt(f, k))
  {
    hide U;
    var given := Lookup(f, METADATA);
    var m := if given.Some? && given.value.JObj? then given.value.members else MNil;
    if given.Some? { WfLookup(f.members, METADATA); }
    assert WfMembers(m);
    PutMap(m, ACTOR, JStr(actor));
    PutMap(f.members, METADATA, JObj(Put(m, ACTOR, JStr(actor))));
  }

  lemma CaptureCaptures(input: FactCommand)
    requires CaptureFact(input).Ok?
    ensures Captured(CaptureFact(input).value) && CaptureFact(input).value.target == input.target
    ensures CaptureFact(input).value.placement == input.placement
    ensures CaptureFact(input).value.actorAccountId == input.actorAccountId
  {
    Keys();
    hide U, Wf, WithActor, Canonical;
    var f := Parse(Canonical(input.fact)).value;
    WithActorFields(f, input.actorAccountId);
    assert Source(WithActor(f, input.actorAccountId)) == Source(f);
  }

  /** Capture keeps the fact as requested, but for the actor it sets from the session. */
  lemma CaptureKeepsFact(input: FactCommand)
    requires Wf(input.fact) && CaptureFact(input).Ok?
    ensures Captured(CaptureFact(input).value)
    ensures FactIdentity(CaptureFact(input).value.fact) == FactIdentity(input.fact)
    ensures forall k :: k != METADATA ==> SameField(Lookup(CaptureFact(input).value.fact, k), Lookup(input.fact, k))
    ensures forall k :: k != ACTOR ==>
              SameField(MetadataAt(CaptureFact(input).value.fact, k), MetadataAt(input.fact, k))
  {
    ParseCanonical(input.fact);
    CaptureCaptures(input);
    Keys();
    var f := Norm(input.fact);
    WithActorFields(f, input.actorAccountId);
    CaptureLookup(input.fact);
    hide U, Wf, Norm, WithActor, Canonical, SameField;
    var g := WithActor(f, input.actorAccountId);
    assert Source(g) == Source(f);
    assert FactIdentity(g) == FactIdentity(f) by { IdentityDecides(g, f); }
    IdentityDecides(f, input.fact);
    NormIdentity(input.fact);
    forall k | k != ACTOR ensures SameField(MetadataAt(g, k), MetadataAt(input.fact, k)) {
      NormMetadata(input.fact, k);
    }
  }

  lemma NormMetadata(f: Json, k: Text)
    requires Wf(f) && Norm(f).JObj?
    ensures SameField(MetadataAt(Norm(f), k), MetadataAt(f, k))
  {
    hide U;
    NormWf(f);
    NormLookup(f.members, METADATA);
    if METADATA in ToMap(f.members) {
      var m := ToMap(f.members)[METADATA];
      if m.JObj? { NormField(m.members, k); }
    }
  }

  lemma CaptureLookup(f: Json)
    requires Wf(f) && Norm(f).JObj?
    ensures f.JObj? && forall k :: SameField(Lookup(Norm(f), k), Lookup(f, k))
  {
    forall k ensures SameField(Lookup(Norm(f), k), Lookup(f, k)) { NormField(f.members, k); }
  }

  lemma NormIdentity(f: Json)
    requires Wf(f) && IsFact(Norm(f))
    ensures SameIdentity(Norm(f), f)
  {
    CaptureLookup(f);
    hide U, Wf, Norm;
    forall k ensures IsText(Lookup(Norm(f), k)) ==>
      Lookup(f, k) == Lookup(Norm(f), k) && TextAt(f, k) == TextAt(Norm(f), k) {
      assert SameField(Lookup(Norm(f), k), Lookup(f, k));
    }
    assert IsText(Lookup(Norm(f), KIND));
  }

  // Preparing a receipt ------------------------------------------------------------------------

  function FactError(command: FactCommand, head: Head, headSeq: int, now: int): Option<Code> {
    var hash := TextAt(Source(command.fact), SOURCE_HASH);
    if head.branch.status != Active then Some(BranchNotActive)
    else if hash == [] then Some(SourceHashRequired)
    else if hash != DigestText(head.version.sourceContentHash) then Some(StaleSource)
    else if !IsSafe(now) || now < 0 then Some(InvalidCommand)
    else if !IsSafe(headSeq + 1) || headSeq < -1 then Some(RuntimeFactSequenceExhausted)
    else None
  }

  /** prepareRuntimeFactReceipt */
  function PrepareFact(command: FactCommand, head: Head, headSeq: int, payloadHash: Digest,
                       now: int): (r: Result<FactReceipt>)
    ensures r.Ok? <==> FactError(command, head, headSeq, now).None?
  {
    var error := FactError(command, head, headSeq, now);
    if error.Some? then Err(error.value)
    else
      var fact := Assigned(command.fact, now, head.version.snapshotId);
      Ok(FactReceipt(FactIdentity(fact), payloadHash, FactKey(fact),
                     FactEvent(command.target.rootDropId, command.target.branchId, headSeq + 1, FactId(fact), now,
                               fact)))
  }

  /** validateRuntimeFactReceipt, digest syntax aside */
  predicate ValidReceipt(r: FactReceipt, target: Target) {
    var e := r.event;
    && IsFact(e.fact) && e.rootDropId == target.rootDropId && e.branchId == target.branchId
    && Lookup(Source(e.fact), ROOT) == Some(JStr(target.rootDropId))
    && Lookup(Source(e.fact), BRANCH) == Some(JStr(target.branchId))
    && 0 <= e.seq_ <= MAX_SAFE && 0 <= e.createdAt <= MAX_SAFE
    && IsNat(Lookup(e.fact, CREATED_AT)) && NatOf(Lookup(e.fact, CREATED_AT)) == e.createdAt
    && IsNat(Lookup(Source(e.fact), SNAPSHOT_ID))
    && IsText(Lookup(Source(e.fact), SOURCE_HASH))
    && Lookup(e.fact, METADATA).Some? && TextAt(Lookup(e.fact, METADATA).value, ACTOR) != []
    && e.factId == FactId(e.fact) && r.identity == FactIdentity(e.fact) && r.key == FactKey(e.fact)
  }

  /** Every prepared receipt validates, keeps its request's intent and names the head's snapshot. */
  lemma PreparedFactValid(command: FactCommand, head: Head, headSeq: int, payloadHash: Digest, now: int)
    requires Captured(command) && HeadOk(head) && PrepareFact(command, head, headSeq, payloadHash, now).Ok?
    ensures var r := PrepareFact(command, head, headSeq, payloadHash, now).value;
            && ValidReceipt(r, command.target) && Intent(r.event.fact) == Intent(command.fact)
            && r.identity == FactIdentity(command.fact)
            && FactId(r.event.fact) == FactId(command.fact) && FactKey(r.event.fact) == FactKey(command.fact)
            && r.event.seq_ == headSeq + 1 && r.payloadHash == payloadHash
            && IsNat(Lookup(Source(r.event.fact), SNAPSHOT_ID))
            && NatOf(Lookup(Source(r.event.fact), SNAPSHOT_ID)) == head.version.snapshotId
            && Lookup(Source(r.event.fact), SOURCE_HASH) == Some(JStr(DigestText(head.version.sourceContentHash)))
  {
    Keys();
    hide U, IntJson, Assigned, Wf, Intent, FactIdentity, FactKey, FactId, DigestText, IsNat, NatOf, SameRequest, HeadOk;
    var f, m := command.fact, head.version.snapshotId;
    assert 0 <= m <= MAX_SAFE by { HeadInRange(head); }
    StoredFactMatches(f, now, m);
    AssignedFields(f, now, m);
    IntField(now);
    IntField(m);
  }

  lemma HeadInRange(head: Head)
    requires HeadOk(head)
    ensures 0 <= head.version.snapshotId <= MAX_SAFE
  {
  }

  // Appending ----------------------------------------------------------------------------------

  /** The owner's lookup of a branch state; the target has selected `head` already. */
  function RouteError(placement: Placement, head: Head): Option<Code> {
    if placement.routingVersion != 1 then Some(RoutingVersionUnsupported)
    else if head.placement.generation != placement.generation then Some(RoutingGenerationMismatch)
    else None
  }

  /** The owner's read of a version's content. */
  function ContentError(d: Doc, version: Version): Option<Code> {
    if version.snapshotId !in d.snapshots then Some(SnapshotNotFound)
    else if d.snapshots[version.snapshotId].version != version then Some(SnapshotVersionMismatch)
    else None
  }

  predicate SameNames(r: FactReceipt, fact: Json) { r.event.factId == FactId(fact) || r.key == FactKey(fact) }

  /** Another identity already has this public id or storage key. */
  predicate NameTaken(store: FactStore, fact: Json) {
    exists id :: id in store.rows && SameNames(store.rows[id].receipt, fact)
  }

  function FactRowId(target: Target, placement: Placement, identity: Text): Text {
    Canonical(JArr(Tuple(FactRowParts(target, placement, identity))))
  }

  function FactRowParts(target: Target, placement: Placement, identity: Text): seq<Json> {
    [JStr(U("branch.runtime-fact.v1")), JStr(target.rootDropId), JStr(target.branchId),
     IntJson(placement.routingVersion), IntJson(placement.generation), JStr(identity)]
  }

  /** appendRuntimeFact: authorize, replay, refuse taken names, then publish at the current head. */
  function AppendFact(d: Doc, store: FactStore, command: FactCommand, now: int): Result<FactOutcome> {
    var route := RouteError(command.placement, d.head);
    var intent, identity := Intent(command.fact), FactIdentity(command.fact);
    if route.Some? then Err(route.value)
    else if !Authorized(command.actorAccountId, d.head) then Err(Forbidden)
    else if identity in store.rows then
      if store.rows[identity].intent != intent then Err(IdempotencyKeyReused)
      else Ok(FactOutcome(store, false, store.rows[identity].receipt))
    else if NameTaken(store, command.fact) then Err(IdempotencyKeyReused)
    else if ContentError(d, d.head.version).Some? then Err(ContentError(d, d.head.version).value)
    else
      var receipt := PrepareFact(command, d.head, |store.rows| - 1, IntentHash(intent), now);
      if receipt.Err? then Err(receipt.code)
      else
        var row := FactRowId(command.target, command.placement, receipt.value.identity);
        Ok(FactOutcome(FactStore(store.rows[identity := FactRow(intent, receipt.value)],
                                 store.outbox[row := receipt.value]),
                       true, receipt.value))
  }

  // The joint invariant of facts and documents ---------------------------------------------------

  /** The fact names a stored snapshot and carries that snapshot's content hash. */
  ghost predicate SourceOk(d: Doc, fact: Json) {
    var k := Lookup(Source(fact), SNAPSHOT_ID);
    && IsNat(k) && NatOf(k) in d.snapshots
    && Lookup(Source(fact), SOURCE_HASH) == Some(JStr(DigestText(d.snapshots[NatOf(k)].version.sourceContentHash)))
  }

  ghost predicate FactRowOk(d: Doc, store: FactStore, id: Text)
    requires id in store.rows
  {
    var row := store.rows[id];
    && row.receipt.identity == id && ValidReceipt(row.receipt, d.head.target)
    && row.intent == Intent(row.receipt.event.fact) && row.receipt.payloadHash == IntentHash(row.intent)
    && row.receipt.event.seq_ < |store.rows|
    && SourceOk(d, row.receipt.event.fact)
  }

  /** Two different rows share neither sequence nor public name. */
  ghost predicate Apart(a: FactReceipt, b: FactReceipt) {
    a.event.seq_ != b.event.seq_ && a.event.factId != b.event.factId && a.key != b.key
  }

  ghost predicate HasSeq(store: FactStore, i: int) {
    exists id :: id in store.rows && store.rows[id].receipt.event.seq_ == i
  }

  ghost predicate FactsOutboxOk(head: Head, store: FactStore) {
    && |store.outbox| == |store.rows|
    && forall id :: id in store.outbox ==>
         var r := store.outbox[id];
         r.identity in store.rows && store.rows[r.identity].receipt == r
         && id == FactRowId(head.target, head.placement, r.identity)
  }

  ghost predicate FactsInv(d: Doc, store: FactStore) {
    && (forall id :: id in store.rows ==> FactRowOk(d, store, id))
    && (forall a, b :: a in store.rows && b in store.rows && a != b ==>
          Apart(store.rows[a].receipt, store.rows[b].receipt))
    && (forall i :: 0 <= i < |store.rows| ==> HasSeq(store, i))
    && FactsOutboxOk(d.head, store)
  }

  /** Rows are never changed or removed. */
  ghost predicate FactsExtend(a: FactStore, b: FactStore) {
    && (forall id :: id in a.rows ==> id in b.rows && b.rows[id] == a.rows[id])
    && (forall id :: id in a.outbox ==> id in b.outbox && b.outbox[id] == a.outbox[id])
  }

  /** Document commits do not disturb the facts. */
  lemma FactsSurviveCommits(d: Doc, r: Doc, store: FactStore)
    requires FactsInv(d, store) && Extends(d, r)
    ensures FactsInv(r, store)
  {
    hide ValidReceipt, Intent, IntentHash, Apart, HasSeq, IsNat, NatOf, DigestText, FactRowId, U, Source, Lookup;
    forall id | id in store.rows ensures FactRowOk(r, store, id) { assert FactRowOk(d, store, id); }
  }

  lemma FactRowText(t: Target, p: Placement, a: Text)
    ensures var x := FactRowParts(t, p, a);
            && FactRowId(t, p, a) == TupleText(x)
            && (forall i :: 0 <= i < |x| ==> PlainPart(x[i]))
  {
    hide U, IntJson;
    IntJsonDecides(p.routingVersion, p.generation);
    IntJsonDecides(p.generation, p.routingVersion);
    IntIsNumber(p.routingVersion);
    IntIsNumber(p.generation);
    NormTuple(FactRowParts(t, p, a));
  }

  lemma FactRowIdDecides(t: Target, u: Target, p: Placement, q: Placement, a: Text, b: Text)
    ensures FactRowId(t, p, a) == FactRowId(u, q, b) <==> t == u && p == q && a == b
  {
    hide U, IntJson, TupleText, Wf;
    IntJsonDecides(p.routingVersion, q.routingVersion);
    IntJsonDecides(p.generation, q.generation);
    var x, y := FactRowParts(t, p, a), FactRowParts(u, q, b);
    FactRowText(t, p, a);
    FactRowText(u, q, b);
    TupleTextDecides(x, y);
    assert x[1] == JStr(t.rootDropId) && x[2] == JStr(t.branchId) && x[5] == JStr(a);
    assert x[3] == IntJson(p.routingVersion) && x[4] == IntJson(p.generation);
    assert y[1] == JStr(u.rootDropId) && y[2] == JStr(u.branchId) && y[5] == JStr(b);
    assert y[3] == IntJson(q.routingVersion) && y[4] == IntJson(q.generation);
  }

  /** A retry is decided by intent alone, whatever has happened to the document since. */
  lemma FactRetry(d: Doc, store: FactStore, command: FactCommand, now: int)
    requires FactsInv(d, store) && Captured(command) && FactIdentity(command.fact) in store.rows
    requires RouteError(command.placement, d.head).None? && Authorized(command.actorAccountId, d.head)
    ensures var row := store.rows[FactIdentity(command.fact)];
            AppendFact(d, store, command, now) ==
              if SameRequest(command.fact, row.receipt.event.fact) then Ok(FactOutcome(store, false, row.receipt))
              else Err(IdempotencyKeyReused)
  {
    var id := FactIdentity(command.fact);
    assert FactRowOk(d, store, id);
    hide ValidReceipt, IsFact, Intent, IntentHash, FactIdentity, SameRequest, SourceOk, Lookup, Source, Wf, NameTaken,
         PrepareFact;
    FactShaped(command.fact);
    assert IsFact(store.rows[id].receipt.event.fact) by { ReceiptIsFact(store.rows[id].receipt, d.head.target); }
    FactShaped(store.rows[id].receipt.event.fact);
    IntentDecides(command.fact, store.rows[id].receipt.event.fact);
  }

  lemma FactShaped(f: Json)
    requires IsFact(f)
    ensures Shaped(f)
  {
  }

  lemma ReceiptIsFact(r: FactReceipt, t: Target)
    requires ValidReceipt(r, t)
    ensures IsFact(r.event.fact)
  {
  }

  /** A new fact: one row and one outbox entry more, and the joint invariant holds again. */
  lemma AppendKeepsFacts(d: Doc, store: FactStore, command: FactCommand, now: int)
    requires Inv(d) && FactsInv(d, store) && Captured(command) && command.target == d.head.target
             && d.head.placement.routingVersion == 1
    requires AppendFact(d, store, command, now).Ok?
    ensures var r := AppendFact(d, store, command, now).value;
            && FactsInv(d, r.store) && FactsExtend(store, r.store)
            && r.receipt.identity == FactIdentity(command.fact) && r.receipt.identity in r.store.rows
            && r.store.rows[r.receipt.identity] == FactRow(Intent(command.fact), r.receipt)
  {
    hide Inv, Gapless, FactsInv, Captured, HeadOk, NameTaken, Intent, IntentHash, FactIdentity, FactId, FactKey,
         FactRowId, IsFact, ValidReceipt, U, Lookup, Source, DigestText, NatOf, IsNat, PrepareFact, TextAt;
    InvHeld(d);
    var id, out := FactIdentity(command.fact), AppendFact(d, store, command, now).value;
    if id in store.rows {
      StoredIdentity(d, store, id);
    } else {
      PreparedFactValid(command, d.head, |store.rows| - 1, IntentHash(Intent(command.fact)), now);
      assert command.placement == d.head.placement;
      NamesHead(d, out.receipt.event.fact);
      SameName(store, command.fact, out.receipt.event.fact);
      NewFact(d, store, out.store, id, out.receipt);
    }
  }

  lemma NamesHead(d: Doc, f: Json)
    requires Held(d) && d.snapshots[d.head.version.snapshotId].version == d.head.version
    requires IsNat(Lookup(Source(f), SNAPSHOT_ID)) && NatOf(Lookup(Source(f), SNAPSHOT_ID)) == d.head.version.snapshotId
    requires Lookup(Source(f), SOURCE_HASH) == Some(JStr(DigestText(d.head.version.sourceContentHash)))
    ensures SourceOk(d, f)
  {
  }

  lemma StoredIdentity(d: Doc, store: FactStore, id: Text)
    requires FactsInv(d, store) && id in store.rows
    ensures store.rows[id].receipt.identity == id
  {
    assert FactRowOk(d, store, id);
  }

  /** The stored row of a new fact, against the head it was prepared at. */
  lemma NewFact(d: Doc, store: FactStore, next: FactStore, id: Text, r: FactReceipt)
    requires FactsInv(d, store) && id !in store.rows && r.identity == id && ValidReceipt(r, d.head.target)
    requires r.payloadHash == IntentHash(Intent(r.event.fact)) && r.event.seq_ == |store.rows|
    requires SourceOk(d, r.event.fact)
    requires !NameTaken(store, r.event.fact)
    requires next == FactStore(store.rows[id := FactRow(Intent(r.event.fact), r)],
                               store.outbox[FactRowId(d.head.target, d.head.placement, id) := r])
    ensures FactsInv(d, next) && FactsExtend(store, next)
  {
    hide ValidReceipt, Intent, IntentHash, SourceOk, IsNat, NatOf, Lookup, Source, DigestText, FactRowId, FactId,
         FactKey, U, FactsOutboxOk, FactRowOk, Apart, HasSeq, NameTaken, FactsExtend;
    assert next.rows.Keys == store.rows.Keys + {id} && |next.rows.Keys| == |next.rows|
           && |store.rows.Keys| == |store.rows|;
    forall k | k in next.rows ensures FactRowOk(d, next, k) { FactRowMore(d, store, next, id, r, k); }
    forall a, b | a in next.rows && b in next.rows && a != b ensures Apart(next.rows[a].receipt, next.rows[b].receipt) {
      if a != id && b != id {
        assert Apart(store.rows[a].receipt, store.rows[b].receipt);
      } else {
        NewApart(d, store, if a == id then b else a, r);
      }
    }
    forall i | 0 <= i < |next.rows| ensures HasSeq(next, i) { SeqKept(store, next, id, r, i); }
    FactOutboxMore(d.head, store, next, id, r);
    StoreExtends(store, next, id, FactRowId(d.head.target, d.head.placement, id), r);
  }

  lemma StoreExtends(store: FactStore, next: FactStore, id: Text, row: Text, r: FactReceipt)
    requires id !in store.rows && row !in store.outbox
    requires next == FactStore(store.rows[id := FactRow(Intent(r.event.fact), r)], store.outbox[row := r])
    ensures FactsExtend(store, next)
  {
    hide Intent;
  }

  lemma FactRowMore(d: Doc, store: FactStore, next: FactStore, id: Text, r: FactReceipt, k: Text)
    requires |next.rows| == |store.rows| + 1 && r.identity == id && ValidReceipt(r, d.head.target)
    requires r.payloadHash == IntentHash(Intent(r.event.fact)) && r.event.seq_ == |store.rows|
    requires SourceOk(d, r.event.fact)
    requires next.rows == store.rows[id := FactRow(Intent(r.event.fact), r)] && k in next.rows
    requires k != id ==> FactRowOk(d, store, k)
    ensures FactRowOk(d, next, k)
  {
    hide Intent, IntentHash, SourceOk, NatOf, Lookup, Source, DigestText, FactId, FactKey, U, IsFact, FactIdentity;
  }

  lemma NewApart(d: Doc, store: FactStore, k: Text, r: FactReceipt)
    requires k in store.rows && FactRowOk(d, store, k) && ValidReceipt(r, d.head.target)
    requires r.event.seq_ == |store.rows| && !NameTaken(store, r.event.fact)
    ensures Apart(store.rows[k].receipt, r) && Apart(r, store.rows[k].receipt)
  {
    hide Intent, IntentHash, SourceOk, NatOf, Lookup, Source, DigestText, FactId, FactKey, U, IsFact, FactIdentity;
  }

  lemma SameName(store: FactStore, f: Json, g: Json)
    requires FactId(f) == FactId(g) && FactKey(f) == FactKey(g)
    ensures NameTaken(store, f) == NameTaken(store, g)
  {
  }

  lemma SeqKept(store: FactStore, next: FactStore, id: Text, r: FactReceipt, i: int)
    requires id !in store.rows && id in next.rows && next.rows[id].receipt == r && r.event.seq_ == |store.rows|
    requires forall k :: k in store.rows ==> k in next.rows && next.rows[k] == store.rows[k]
    requires i == |store.rows| || HasSeq(store, i)
    ensures HasSeq(next, i)
  {
    if i == |store.rows| {
      assert next.rows[id].receipt.event.seq_ == i;
    } else {
      var k :| k in store.rows && store.rows[k].receipt.event.seq_ == i;
      assert next.rows[k].receipt.event.seq_ == i;
    }
  }

  lemma FactOutboxMore(head: Head, store: FactStore, next: FactStore, id: Text, r: FactReceipt)
    requires FactsOutboxOk(head, store) && id !in store.rows && r.identity == id
    requires id in next.rows && next.rows[id].receipt == r && |next.rows| == |store.rows| + 1
    requires forall k :: k in store.rows ==> k in next.rows && next.rows[k] == store.rows[k]
    requires next.outbox == store.outbox[FactRowId(head.target, head.placement, id) := r]
    ensures FactsOutboxOk(head, next) && FactRowId(head.target, head.placement, id) !in store.outbox
  {
    hide FactRowId;
    var row := FactRowId(head.target, head.placement, id);
    if row in store.outbox {
      FactRowIdDecides(head.target, head.target, head.placement, head.placement, id, store.outbox[row].identity);
    }
    assert next.outbox.Keys == store.outbox.Keys + {row};
    assert |next.outbox.Keys| == |next.outbox| && |store.outbox.Keys| == |store.outbox|;
  }
}
