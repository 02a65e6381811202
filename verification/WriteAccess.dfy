/** Who may write facts and memory, when a write succeeds, and what it leaves behind, in the fields
    of the branch. */
module WriteAccess {
  import opened Wrappers
  import opened JsText
  import opened Json
  import opened JsonCanonical
  import opened JsonEdit
  import opened BranchState
  import opened Timeline
  import opened RuntimeFacts
  import opened FactStream
  import opened NullMem
  import opened NullMemState
  import opened StatePlane
  import opened Runs
  import opened RunResults
  import opened Retries

  /** The actor is neither the owner nor the writer of the branch. */
  ghost predicate Outsider(actor: Text, b: Branch) {
    b.ownerAccountId != Some(actor) && b.writerAccountId != Some(actor)
  }

  lemma AuthorizedExactly(actor: Text, head: Head)
    ensures Authorized(actor, head) <==> !Outsider(actor, head.branch)
  {
  }

  // Capture ------------------------------------------------------------------------------------------

  /** A put is captured exactly when it names its actor and its record is a fact or a procedure of
      this branch with a string id and a number for its time; other fields are free. */
  lemma PutCapturesExactly(c: PutCommand)
    requires Wf(c.record)
    ensures CapturePut(c).Ok? <==>
              && c.actorAccountId != []
              && (Lookup(c.record, U("kind")) == Some(JStr(U("fact")))
                  || Lookup(c.record, U("kind")) == Some(JStr(U("procedure"))))
              && Lookup(c.record, U("recordId")).Some? && Lookup(c.record, U("recordId")).value.JStr?
              && Lookup(c.record, U("rootDropId")) == Some(JStr(c.target.rootDropId))
              && Lookup(c.record, U("branchId")) == Some(JStr(c.target.branchId))
              && Lookup(c.record, U("createdAt")).Some? && Lookup(c.record, U("createdAt")).value.JNum?
  {
    hide Norm, Canonical, Same, Wf;
    ParseCanonical(c.record);
    KindsApart();
    NormalForm(c.record);
    hide U;
    if c.record.JObj? {
      var r := Norm(c.record);
      KeptText(c.record, KIND);
      KeptText(c.record, RECORD_ID);
      KeptText(c.record, ROOT);
      KeptText(c.record, BRANCH);
      KeptText(c.record, CREATED_AT);
    }
  }

  /** The shape of a runtime fact, as it is given. */
  ghost predicate FactShape(f: Json, target: Target) {
    && f.JObj? && Lookup(f, U("source")).Some? && Lookup(f, U("source")).value.JObj?
    && IsText(Lookup(f, U("id")))
    && (|| (Lookup(f, U("kind")) == Some(JStr(U("ui.response"))) && IsText(Lookup(f, U("primitiveId"))))
        || (Lookup(f, U("kind")) == Some(JStr(U("ui.state.patch"))) && IsText(Lookup(f, U("callId"))))
        || (Lookup(f, U("kind")) == Some(JStr(U("ui.state.snapshot"))) && IsText(Lookup(f, U("callId")))))
    && (Lookup(f, U("metadata")).Some? ==> Lookup(f, U("metadata")).value.JObj?)
    && var s := Lookup(f, U("source")).value;
       && Lookup(s, U("rootDropId")) == Some(JStr(target.rootDropId))
       && Lookup(s, U("branchId")) == Some(JStr(target.branchId))
       && MaybeText(Lookup(s, U("sourceContentHash")))
  }

  /** A fact is captured exactly when it names its actor, has the shape of its kind and its source
      is this branch. */
  lemma FactCapturesExactly(c: FactCommand)
    requires Wf(c.fact)
    ensures CaptureFact(c).Ok? <==> c.actorAccountId != [] && FactShape(c.fact, c.target)
  {
    hide Norm, Canonical, Same, Wf, WithActor;
    ParseCanonical(c.fact);
    FactKindsApart();
    NormalForm(c.fact);
    hide U;
    if c.fact.JObj? {
      KeptText(c.fact, KIND);
      KeptText(c.fact, ID);
      KeptText(c.fact, PRIMITIVE_ID);
      KeptText(c.fact, CALL_ID);
      KeptText(c.fact, SOURCE);
      KeptText(c.fact, METADATA);
      if Source(c.fact).JObj? {
        KeptSource(c.fact);
        KeptText(Source(c.fact), ROOT);
        KeptText(Source(c.fact), BRANCH);
        KeptText(Source(c.fact), SOURCE_HASH);
      }
    }
  }

  lemma FactKindsApart()
    ensures RESPONSE != PATCH && RESPONSE != SNAPSHOT && PATCH != SNAPSHOT
  {
    assert |RESPONSE| == 11 && |PATCH| == 14 && |SNAPSHOT| == 17;
  }

  lemma KeptSource(f: Json)
    requires Wf(f) && f.JObj? && Source(f).JObj?
    ensures Source(Norm(f)) == Norm(Source(f)) && Wf(Source(f))
  {
    hide U;
    NormLookup(f.members, SOURCE);
  }

  lemma KindsApart()
    ensures FACT != CAPABILITY && PROCEDURE != CAPABILITY && FACT != PROCEDURE
  {
    assert |FACT| == 4 && |PROCEDURE| == 9 && |CAPABILITY| == 10;
  }

  lemma NormalForm(j: Json)
    requires Wf(j)
    ensures Wf(Norm(j)) && (Norm(j).JObj? <==> j.JObj?)
  {
    NormWf(j);
  }

  /** Normalising keeps strings, and numbers as numbers. */
  lemma KeptText(r: Json, k: Text)
    requires Wf(r) && r.JObj?
    ensures forall t :: Lookup(Norm(r), k) == Some(JStr(t)) <==> Lookup(r, k) == Some(JStr(t))
    ensures Lookup(Norm(r), k).Some? <==> Lookup(r, k).Some?
    ensures Lookup(r, k).Some? ==>
              && (Lookup(Norm(r), k).value.JStr? <==> Lookup(r, k).value.JStr?)
              && (Lookup(Norm(r), k).value.JNum? <==> Lookup(r, k).value.JNum?)
              && (Lookup(Norm(r), k).value.JObj? <==> Lookup(r, k).value.JObj?)
  {
    CaptureLookup(r);
    assert SameField(Lookup(Norm(r), k), Lookup(r, k));
  }

  // Memory -------------------------------------------------------------------------------------------

  /** A well-formed put that is routed to the branch is forbidden to outsiders only; owner and
      writer succeed at every valid time below the last revision. */
  lemma PutAnswers(p: Plane, c: PutCommand, now: int)
    requires PlaneInv(p) && c.target == p.target && CapturePut(c).Ok? && StateError(p, c.placement).None?
    ensures p.live.Some?
    ensures var l, r := p.live.value, PutAt(p, c, now);
            && (r == Err(Forbidden) <==> Outsider(c.actorAccountId, l.doc.head.branch))
            && (r.Ok? <==>
                  && !Outsider(c.actorAccountId, l.doc.head.branch)
                  && 0 <= now <= MAX_SAFE && l.memory.revision < MAX_SAFE)
            && (r.Err? ==> r.code == Forbidden || r.code == InvalidCommand)
  {
    hide PlaneInv, StateError, CapturePut, Authorized, AccessError, Stamped, IntentOf, MemoryRowId, SetRecord, Outsider,
         PublishedMutation, Inv, MemoryInv;
    Routed(p, c.placement);
    MemoryNeverCorrupt(p, c.placement);
    LiveMemory(p);
    LiveRevision(p.live.value);
    CapturedScope(c);
    PutKeeps(p, c, now);
    AuthorizedExactly(c.actorAccountId, p.live.value.doc.head);
  }

  lemma LiveRevision(l: Live)
    requires MemoryInv(l.doc, l.memory)
    ensures 0 <= l.memory.revision <= MAX_SAFE
  {
  }

  lemma CapturedScope(c: PutCommand)
    requires CapturePut(c).Ok?
    ensures var d := CapturePut(c).value;
            && d.actorAccountId == c.actorAccountId && d.placement == c.placement && d.target == c.target
  {
    hide ValidRecord;
  }

  lemma DeleteAnswers(p: Plane, c: DeleteCommand, now: int)
    requires PlaneInv(p) && c.target == p.target && c.actorAccountId != [] && StateError(p, c.placement).None?
    ensures p.live.Some?
    ensures var l, r := p.live.value, DeleteAt(p, c, now);
            && (r == Err(Forbidden) <==> Outsider(c.actorAccountId, l.doc.head.branch))
            && (r.Ok? <==>
                  && !Outsider(c.actorAccountId, l.doc.head.branch)
                  && 0 <= now <= MAX_SAFE && l.memory.revision < MAX_SAFE)
            && (r.Err? ==> r.code == Forbidden || r.code == InvalidCommand)
  {
    hide PlaneInv, StateError, Authorized, AccessError, IntentOf, MemoryRowId, RemoveRecords, Outsider,
         PublishedMutation, Inv, MemoryInv;
    Routed(p, c.placement);
    MemoryNeverCorrupt(p, c.placement);
    LiveMemory(p);
    LiveRevision(p.live.value);
    DeleteKeeps(p, c, now);
    AuthorizedExactly(c.actorAccountId, p.live.value.doc.head);
  }

  /** The record as requested, but for the time it was stored. */
  ghost predicate StoredAs(s: Json, requested: Json, now: int) {
    && StampedAt(s, now) && RecordIdentity(s) == RecordIdentity(requested)
    && forall k :: k != CREATED_AT ==> SameField(Lookup(s, k), Lookup(requested, k))
  }

  /** One revision more, with an entry that names actor, time and head. */
  ghost predicate OneMutation(l: Live, m: Live, e: Entry, actor: Text, now: int) {
    && m.doc == l.doc && m.facts == l.facts
    && m.memory.revision == l.memory.revision + 1 && m.memory.log == l.memory.log + [e]
    && e.actorAccountId == actor && e.createdAt == now
    && e.result == MemoryResult(l.doc.head.target, l.doc.head.placement, l.doc.head, l.memory.revision + 1)
  }

  /** A put that succeeds stores its record under its kind and id, as requested and with the time
      assigned, and leaves every other record, the document and the facts alone. */
  lemma PutStores(p: Plane, c: PutCommand, now: int)
    requires PlaneInv(p) && c.target == p.target && Wf(c.record) && PutAt(p, c, now).Ok?
    ensures p.live.Some? && PutAt(p, c, now).value.plane.live.Some? && PutAt(p, c, now).value.reply.Mutated?
    ensures var l, m := p.live.value, PutAt(p, c, now).value.plane.live.value;
            var e := PutAt(p, c, now).value.reply.entry;
            && OneMutation(l, m, e, c.actorAccountId, now)
            && e.mutation.PutRecord? && StoredAs(e.mutation.record, c.record, now)
            && Table(m.memory.records) == Table(l.memory.records)[RecordIdentity(c.record) := e.mutation.record]
  {
    hide PlaneInv, StateError, AccessError, Stamped, IntentOf, MemoryRowId, SetRecord, Inv, StoredAs, Table, Authorized,
         MemoryInv, RecordIdentity, ValidRecord;
    PutAuthorized(p, c, now);
    LiveTarget(p);
    Routed(p, c.placement);
    LiveMemory(p);
    var l, d := p.live.value, CapturePut(c).value;
    CapturedRecord(c, now);
    DistinctLive(l);
    SetTable(l.memory.records, Stamped(d.record, now));
    assert c.placement == l.doc.head.placement;
  }

  lemma PutAuthorized(p: Plane, c: PutCommand, now: int)
    requires PutAt(p, c, now).Ok?
    ensures CapturePut(c).Ok? && StateError(p, c.placement).None? && p.live.Some? && 0 <= now <= MAX_SAFE
  {
    hide ValidRecord, AccessError, StateError, Stamped, IntentOf, MemoryRowId, SetRecord, Authorized;
    Routed(p, c.placement);
  }

  lemma DistinctLive(l: Live)
    requires MemoryInv(l.doc, l.memory)
    ensures DistinctRecords(l.memory.records)
  {
    hide RecordIdentity;
  }

  lemma CapturedRecord(c: PutCommand, now: int)
    requires CapturePut(c).Ok? && Wf(c.record) && 0 <= now <= MAX_SAFE
    ensures StoredAs(Stamped(CapturePut(c).value.record, now), c.record, now)
    ensures RecordIdentity(Stamped(CapturePut(c).value.record, now)) == RecordIdentity(c.record)
  {
    hide U, Wf, Norm, Stamped, StampedAt, Same, RecordIdentity, Canonical, RecordIntent;
    ParseCanonical(c.record);
    var r := CapturePut(c).value.record;
    StampedRecord(r, c.target, now);
    CaptureLookup(c.record);
    RecordWf(r, c.target);
    StampedFields(r, now);
    RecordKeys();
    assert SameField(Lookup(r, KIND), Lookup(c.record, KIND));
    assert SameField(Lookup(r, RECORD_ID), Lookup(c.record, RECORD_ID));
    SameTexts(r, c.record, KIND);
    SameTexts(r, c.record, RECORD_ID);
    RecordIdentityDecides(r, c.record);
  }

  lemma RecordWf(r: Json, target: Target)
    requires ValidRecord(r, target)
    ensures Wf(r) && r.JObj? && IsText(Lookup(r, KIND)) && IsText(Lookup(r, RECORD_ID))
  {
  }

  lemma SameTexts(r: Json, s: Json, k: Text)
    requires SameField(Lookup(r, k), Lookup(s, k)) && IsText(Lookup(r, k))
    ensures TextAt(r, k) == TextAt(s, k)
  {
  }

  /** A deletion that succeeds removes the records of that id, of whatever kind, and nothing else;
      it succeeds for an absent id too. */
  lemma DeleteStores(p: Plane, c: DeleteCommand, now: int)
    requires PlaneInv(p) && c.target == p.target && DeleteAt(p, c, now).Ok?
    ensures p.live.Some? && DeleteAt(p, c, now).value.plane.live.Some? && DeleteAt(p, c, now).value.reply.Mutated?
    ensures var l, m := p.live.value, DeleteAt(p, c, now).value.plane.live.value;
            var e := DeleteAt(p, c, now).value.reply.entry;
            && OneMutation(l, m, e, c.actorAccountId, now) && e.mutation == DeleteRecord(c.recordId)
            && (forall id :: id in Table(m.memory.records) <==>
                  id in Table(l.memory.records) && TextAt(Table(l.memory.records)[id], RECORD_ID) != c.recordId)
            && (forall id :: id in Table(m.memory.records) ==>
                  Table(m.memory.records)[id] == Table(l.memory.records)[id])
  {
    hide PlaneInv, StateError, AccessError, IntentOf, MemoryRowId, RemoveRecords, Inv, Table, Authorized, MemoryInv,
         RecordIdentity, TextAt;
    DeleteAuthorized(p, c, now);
    Routed(p, c.placement);
    LiveTarget(p);
    LiveMemory(p);
    var l := p.live.value;
    DistinctLive(l);
    RemoveTable(l.memory.records, c.recordId);
    assert c.placement == l.doc.head.placement;
  }

  lemma DeleteAuthorized(p: Plane, c: DeleteCommand, now: int)
    requires DeleteAt(p, c, now).Ok?
    ensures StateError(p, c.placement).None? && p.live.Some? && 0 <= now <= MAX_SAFE
  {
    hide AccessError, StateError, IntentOf, MemoryRowId, RemoveRecords, Authorized;
    Routed(p, c.placement);
  }

  // Facts --------------------------------------------------------------------------------------------

  /** No stored fact has the identity, the public id or the storage key of this one. */
  ghost predicate NewName(store: FactStore, f: Json) {
    forall id :: id in store.rows ==>
      && id != FactIdentity(f)
      && store.rows[id].receipt.event.factId != FactId(f) && store.rows[id].receipt.key != FactKey(f)
  }

  /** The fact was computed from the content that the branch has now. */
  ghost predicate Current(d: Doc, f: Json) {
    Lookup(Source(f), SOURCE_HASH) == Some(JStr(DigestText(d.head.version.sourceContentHash)))
  }

  /** A well-formed fact that is routed to the branch is forbidden to outsiders only. Owner and
      writer may repeat a stored request at any time; a new fact needs a free name, an active branch,
      the current content and a valid time. */
  lemma FactAnswers(p: Plane, input: FactCommand, now: int)
    requires PlaneInv(p) && input.target == p.target && CaptureFact(input).Ok? && StateError(p, input.placement).None?
    ensures p.live.Some?
    ensures var l, f, r := p.live.value, CaptureFact(input).value.fact, FactAt(p, input, now);
            && (r == Err(Forbidden) <==> Outsider(input.actorAccountId, l.doc.head.branch))
            && (r.Ok? <==>
                  && !Outsider(input.actorAccountId, l.doc.head.branch)
                  && if FactIdentity(f) in l.facts.rows
                     then SameRequest(f, l.facts.rows[FactIdentity(f)].receipt.event.fact)
                     else
                       && NewName(l.facts, f) && l.doc.head.branch.status == Active && Current(l.doc, f)
                       && 0 <= now <= MAX_SAFE && |l.facts.rows| <= MAX_SAFE)
            && (!Outsider(input.actorAccountId, l.doc.head.branch) && FactIdentity(f) !in l.facts.rows ==>
                  NewFactRefused(l.doc, l.facts, f, r))
  {
    hide PlaneInv, StateError, CaptureFact, Authorized, AppendFact, Inv, FactsInv, Outsider, Captured, FactIdentity,
         SameRequest, NewName, Current, RouteError, DeliveryOk;
    Routed(p, input.placement);
    LiveDoc(p);
    LiveFacts(p);
    CaptureCaptures(input);
    var l, c := p.live.value, CaptureFact(input).value;
    AuthorizedExactly(input.actorAccountId, l.doc.head);
    AppendAnswers(l.doc, l.facts, c, now);
    FactKeeps(p, input, now);
    FactFollows(p, input, now);
  }

  /** The operation is refused as the append is. */
  lemma FactFollows(p: Plane, input: FactCommand, now: int)
    requires CaptureFact(input).Ok? && StateError(p, input.placement).None? && p.live.Some?
    ensures var r := AppendFact(p.live.value.doc, p.live.value.facts, CaptureFact(input).value, now);
            && (r.Err? ==> FactAt(p, input, now) == Err(r.code))
            && (r.Ok? && FactAt(p, input, now).Err? ==> FactAt(p, input, now).code == StateCorrupt)
  {
    hide AppendFact, CaptureFact, StateError, FactRowId;
  }

  /** Why a new fact of the owner or the writer is refused. */
  ghost predicate NewFactRefused<T(!new)>(d: Doc, store: FactStore, f: Json, r: Result<T>) {
    var hash, active := Lookup(Source(f), SOURCE_HASH), d.head.branch.status == Active;
    && (r == Err(IdempotencyKeyReused) <==> !NewName(store, f))
    && (r == Err(BranchNotActive) <==> NewName(store, f) && !active)
    && (r == Err(SourceHashRequired) <==> NewName(store, f) && active && (hash == None || hash == Some(JStr([]))))
    && (r == Err(StaleSource) <==>
          NewName(store, f) && active && hash != None && hash != Some(JStr([])) && !Current(d, f))
  }

  lemma AppendAnswers(d: Doc, store: FactStore, c: FactCommand, now: int)
    requires Inv(d) && FactsInv(d, store) && Captured(c) && RouteError(c.placement, d.head).None?
    ensures var f, r := c.fact, AppendFact(d, store, c, now);
            && (r == Err(Forbidden) <==> !Authorized(c.actorAccountId, d.head))
            && (r.Ok? <==>
                  && Authorized(c.actorAccountId, d.head)
                  && if FactIdentity(f) in store.rows
                    then SameRequest(f, store.rows[FactIdentity(f)].receipt.event.fact)
                     else
                       && NewName(store, f) && d.head.branch.status == Active && Current(d, f)
                       && 0 <= now <= MAX_SAFE && |store.rows| <= MAX_SAFE)
            && (Authorized(c.actorAccountId, d.head) && FactIdentity(f) !in store.rows ==>
                  NewFactRefused(d, store, f, r))
  {
    hide Inv, FactsInv, Captured, Authorized, FactIdentity, SameRequest, NewName, Current, RouteError, Intent,
         NameTaken, PrepareFact, FactRowId, IntentHash, Gapless;
    InvHeld(d);
    if Authorized(c.actorAccountId, d.head) {
      if FactIdentity(c.fact) in store.rows {
        FactRetry(d, store, c, now);
      } else {
        NameFree(store, c.fact);
        PreparedExactly(c, d, |store.rows| - 1, IntentHash(Intent(c.fact)), now);
      }
    }
  }

  lemma NameFree(store: FactStore, f: Json)
    requires FactIdentity(f) !in store.rows
    ensures NewName(store, f) <==> !NameTaken(store, f)
  {
    hide FactIdentity, FactId, FactKey;
  }

  lemma PreparedExactly(c: FactCommand, d: Doc, headSeq: int, hash: Digest, now: int)
    requires Captured(c) && -1 <= headSeq
    ensures var r := PrepareFact(c, d.head, headSeq, hash, now);
            && r != Err(Forbidden)
            && (r.Ok? <==> d.head.branch.status == Active && Current(d, c.fact) && 0 <= now <= MAX_SAFE
                           && headSeq + 1 <= MAX_SAFE)
            && r != Err(IdempotencyKeyReused)
            && var hash, active := Lookup(Source(c.fact), SOURCE_HASH), d.head.branch.status == Active;
               && (r == Err(BranchNotActive) <==> !active)
               && (r == Err(SourceHashRequired) <==> active && (hash == None || hash == Some(JStr([]))))
               && (r == Err(StaleSource) <==> active && hash != None && hash != Some(JStr([])) && !Current(d, c.fact))
  {
    hide Assigned, FactIdentity, FactKey, FactId, Wf;
    assert DigestText(d.head.version.sourceContentHash)[0] == 115;
  }

  /** A new fact is stored as requested, with the next sequence, the time and the snapshot of the
      head; every other row, the document and the memory stay as they are. */
  lemma FactStores(p: Plane, input: FactCommand, now: int)
    requires PlaneInv(p) && input.target == p.target && FactAt(p, input, now).Ok?
    requires CaptureFact(input).Ok? && p.live.Some?
             && FactIdentity(CaptureFact(input).value.fact) !in p.live.value.facts.rows
    ensures FactAt(p, input, now).value.reply.Noted? && FactAt(p, input, now).value.reply.appended
    ensures FactAt(p, input, now).value.plane.live.Some?
    ensures var l, m := p.live.value, FactAt(p, input, now).value.plane.live.value;
            var f, r := CaptureFact(input).value.fact, FactAt(p, input, now).value.reply.factReceipt;
            && m.doc == l.doc && m.memory == l.memory
            && m.facts.rows == l.facts.rows[FactIdentity(f) := FactRow(Intent(f), r)]
            && StoredFact(r, f, input.target, |l.facts.rows|, now, l.doc.head.version.snapshotId)
  {
    hide PlaneInv, StateError, CaptureFact, Authorized, Inv, FactsInv, Captured, FactIdentity, SameRequest, RouteError,
         NameTaken, PrepareFact, FactRowId, IntentHash, Intent, HeadOk, Gapless, StoredFact;
    AppendedNow(p, input, now);
    LiveDoc(p);
    CaptureCaptures(input);
    var l, c := p.live.value, CaptureFact(input).value;
    InvHeld(l.doc);
    AppendPrepares(l.doc, l.facts, c, now);
    PreparedStores(c, l.doc.head, |l.facts.rows| - 1, IntentHash(Intent(c.fact)), now);
  }

  ghost predicate StoredFact(r: FactReceipt, f: Json, target: Target, n: int, now: int, snapshotId: int) {
    var e := r.event;
    && e.seq_ == n && e.createdAt == now && e.rootDropId == target.rootDropId && e.branchId == target.branchId
    && SameRequest(e.fact, f) && r.identity == FactIdentity(f)
    && IsNat(Lookup(e.fact, CREATED_AT)) && NatOf(Lookup(e.fact, CREATED_AT)) == now
    && IsNat(Lookup(Source(e.fact), SNAPSHOT_ID)) && NatOf(Lookup(Source(e.fact), SNAPSHOT_ID)) == snapshotId
  }

  lemma AppendPrepares(d: Doc, store: FactStore, c: FactCommand, now: int)
    requires AppendFact(d, store, c, now).Ok? && FactIdentity(c.fact) !in store.rows
    ensures var r, out := PrepareFact(c, d.head, |store.rows| - 1, IntentHash(Intent(c.fact)), now),
                          AppendFact(d, store, c, now).value;
            && r.Ok? && out.appended && out.receipt == r.value
            && out.store.rows == store.rows[FactIdentity(c.fact) := FactRow(Intent(c.fact), r.value)]
  {
    hide FactIdentity, Intent, IntentHash, PrepareFact, NameTaken, FactRowId, Authorized, RouteError, ContentError;
  }

  lemma PreparedStores(c: FactCommand, head: Head, headSeq: int, hash: Digest, now: int)
    requires Captured(c) && HeadOk(head) && PrepareFact(c, head, headSeq, hash, now).Ok?
    ensures StoredFact(PrepareFact(c, head, headSeq, hash, now).value, c.fact, c.target, headSeq + 1, now,
                       head.version.snapshotId)
  {
    hide Captured, HeadOk, FactIdentity, FactKey, FactId, SameRequest, Assigned, IsFact, Lookup, Source, IsNat, NatOf,
         Intent, IntentHash, DigestText, TextAt;
    PreparedFactValid(c, head, headSeq, hash, now);
    CapturedFact(c);
    StoredFactMatches(c.fact, now, head.version.snapshotId);
  }

  lemma CapturedFact(c: FactCommand)
    requires Captured(c)
    ensures IsFact(c.fact)
  {
  }
}
