/** Resubmission over whole runs: what is stored is acknowledged where it is stored, whatever path
    brought it in. */
module Retries {
  import opened Wrappers
  import opened JsText
  import opened BranchState
  import opened BranchCommit
  import opened BranchBatch
  import opened Timeline
  import opened Submission
  import opened BatchFusion
  import opened RuntimeFacts
  import opened FactStream
  import opened StatePlane
  import opened Runs

  // Single events ------------------------------------------------------------------------------------

  /** An event is stored with this payload. */
  ghost predicate Holds(d: Doc, e: Event) {
    e.eventId in d.receipts && d.receipts[e.eventId].payloadHash == PayloadHash(e)
  }

  /** The receipt names the sequence and the snapshot at which the document stores the event. */
  ghost predicate NamesEvent(d: Doc, id: Text, q: Receipt) {
    && q.eventId == id && SeqOf(q) in d.events && d.events[SeqOf(q)].eventId == id
    && d.events[SeqOf(q)].snapshotId == Some(q.version.snapshotId)
  }

  /** Once an event is in, by either path, append acknowledges it at every later moment with the
      stored receipt, whatever predecessor the retry names, and changes nothing. */
  lemma CommitRetry(start: Plane, actions: seq<Action>, k: nat, i: nat, j: nat, c: AppendRecord, now: int)
    requires Initial(start) && k <= i <= j <= |actions| && FromRecord(c).Ok?
    requires var p := Run(start, actions)[k]; p.live.Some? && Holds(p.live.value.doc, c.event)
    requires StateError(Run(start, actions)[i], c.placement).None?
    ensures var d := Run(start, actions)[k].live.value.doc; var q := d.receipts[c.event.eventId];
            && NamesEvent(d, c.event.eventId, q)
            && CommitBegin(Run(start, actions)[i], c, now) == Ok(Repeated(q))
            && CommitAt(Run(start, actions)[i], Run(start, actions)[j], c, now) ==
              Ok(Done(Run(start, actions)[j], Appended(false, q)))
  {
    hide PlaneInv, PlaneStep, Run, PrepareCommit, Publish, OfCommit, StateError, Inv, PayloadHash, Extends,
         NamesEvent, Initial;
    RunSafe(start, actions);
    var p, q := Run(start, actions)[k], Run(start, actions)[i];
    assert PlaneStep(p, q) && PlaneInv(p);
    KeptReceipt(p, q, c.event);
  }

  /** A writer that captured its state before the event got in, and prepared, is acknowledged the
      same way when it comes to publish. */
  lemma CommitRace(start: Plane, actions: seq<Action>, i: nat, k: nat, j: nat, c: AppendRecord, now: int)
    requires Initial(start) && i < k <= j <= |actions| && CommitBegin(Run(start, actions)[i], c, now).Ok?
    requires CommitBegin(Run(start, actions)[i], c, now).value.Ready?
    requires var p := Run(start, actions)[k]; p.live.Some? && Holds(p.live.value.doc, c.event)
    requires StateError(Run(start, actions)[j], c.placement).None?
    ensures var d := Run(start, actions)[k].live.value.doc; var q := d.receipts[c.event.eventId];
            && NamesEvent(d, c.event.eventId, q)
            && CommitAt(Run(start, actions)[i], Run(start, actions)[j], c, now) ==
              Ok(Done(Run(start, actions)[j], Appended(false, q)))
  {
    hide PlaneInv, PlaneStep, Run, PrepareCommit, Publish, OfCommit, StateError, Inv, PayloadHash, Extends,
         NamesEvent, Initial;
    RunSafe(start, actions);
    var p, q := Run(start, actions)[k], Run(start, actions)[j];
    assert PlaneStep(p, q) && PlaneInv(p);
    KeptReceipt(p, q, c.event);
  }

  /** An event id is never reused: once it is stored with one payload, append and appendBatch refuse
      it with any other, at every later moment. */
  lemma IdNeverReused(start: Plane, actions: seq<Action>, k: nat, i: nat, j: nat, c: AppendRecord, b: BatchRecord,
                      now: int)
    requires Initial(start) && k <= i <= j <= |actions| && FromRecord(c).Ok? && CaptureBatch(b).Ok? && ValidTime(now)
    requires c.event in b.events && b.placement == c.placement && b.target == start.target
    requires var p := Run(start, actions)[k]; p.live.Some? && Taken(p.live.value.doc, c.event)
    requires StateError(Run(start, actions)[i], c.placement).None?
    ensures CommitAt(Run(start, actions)[i], Run(start, actions)[j], c, now) == Err(DiffEventIdReused)
    ensures BatchAttempt(Run(start, actions)[i], Run(start, actions)[j], b, now) == Err(DiffEventIdReused)
  {
    hide PlaneInv, PlaneStep, Run, StateError, Inv, Extends, Initial, BatchAttempt, CommitAt, CaptureBatch, FromRecord,
         Taken, HeadError;
    RunSafe(start, actions);
    RunStarts(start, actions);
    var p, q, r := Run(start, actions)[k], Run(start, actions)[i], Run(start, actions)[j];
    assert PlaneStep(p, q) && PlaneInv(p) && PlaneInv(q) && PlaneStep(Run(start, actions)[0], q);
    SameTarget(start, q);
    LiveDoc(p);
    StepExtends(p, q);
    StillTaken(p.live.value.doc, q.live.value.doc, c.event);
    CommitReused(q, r, c, now);
    RoutedHead(q, CaptureBatch(b).value, now);
    InvHeld(q.live.value.doc);
    BatchReused(q, r, b, c.event, now);
  }

  /** The event's id is stored with another payload. */
  ghost predicate Taken(d: Doc, e: Event) {
    e.eventId in d.receipts && d.receipts[e.eventId].payloadHash != PayloadHash(e)
  }

  lemma StillTaken(d: Doc, r: Doc, e: Event)
    requires Extends(d, r) && Taken(d, e)
    ensures Taken(r, e)
  {
    hide Extends, PayloadHash;
    ReceiptStays(d, r, e.eventId);
  }

  lemma CommitReused(p: Plane, q: Plane, c: AppendRecord, now: int)
    requires FromRecord(c).Ok? && StateError(p, c.placement).None? && p.live.Some? && Taken(p.live.value.doc, c.event)
    ensures CommitAt(p, q, c, now) == Err(DiffEventIdReused)
  {
    hide StateError, PayloadHash, PrepareCommit, FromRecord;
  }

  lemma BatchReused(p: Plane, q: Plane, b: BatchRecord, e: Event, now: int)
    requires CaptureBatch(b).Ok? && e in b.events && StateError(p, b.placement).None? && p.live.Some?
    requires Held(p.live.value.doc) && HeadError(CaptureBatch(b).value, p.live.value.doc.head, now).None?
    requires Taken(p.live.value.doc, e)
    ensures BatchAttempt(p, q, b, now) == Err(DiffEventIdReused)
  {
    hide StateError, HeadError, PayloadHash, HashSource, Rows, Acks, Firsts, Fresh, PredecessorsMatch;
    var events := CaptureBatch(b).value.events;
    var k :| 0 <= k < |b.events| && b.events[k] == e;
    SameHash(e, events[k]);
    assert HashEvents(events)[k] == Identity(events[k], PayloadHash(events[k]));
  }

  /** A stored receipt is there unchanged later on, and names its event. */
  lemma KeptReceipt(p: Plane, q: Plane, e: Event)
    requires PlaneInv(p) && PlaneStep(p, q) && p.live.Some? && Holds(p.live.value.doc, e)
    ensures var d := p.live.value.doc;
            && q.live.Some? && e.eventId in q.live.value.doc.receipts
            && q.live.value.doc.receipts[e.eventId] == d.receipts[e.eventId]
            && NamesEvent(d, e.eventId, d.receipts[e.eventId])
  {
    hide PlaneInv, PlaneStep, Inv, PayloadHash, Extends;
    LiveDoc(p);
    StepExtends(p, q);
    ReceiptStays(p.live.value.doc, q.live.value.doc, e.eventId);
    ReceiptNames(p.live.value.doc, e.eventId);
  }

  lemma ReceiptNames(d: Doc, id: Text)
    requires Inv(d) && id in d.receipts
    ensures NamesEvent(d, id, d.receipts[id])
  {
    hide OutboxOk, PatchOk, PayloadHash;
    var i := SeqOf(d.receipts[id]);
    assert ReceiptOk(d, i);
    assert SnapshotOk(d, d.events[i].snapshotId.value);
  }

  lemma ReceiptStays(d: Doc, r: Doc, id: Text)
    requires Extends(d, r) && id in d.receipts
    ensures id in r.receipts && r.receipts[id] == d.receipts[id]
  {
  }

  lemma StepExtends(p: Plane, q: Plane)
    requires PlaneStep(p, q) && p.live.Some? && Inv(p.live.value.doc)
    ensures q.live.Some? && Extends(p.live.value.doc, q.live.value.doc)
  {
    hide Inv;
    InvHeld(p.live.value.doc);
  }

  // Envelopes ----------------------------------------------------------------------------------------

  /** Every event of a successful batch is stored afterwards. */
  lemma SubmittedIsStored(d: Doc, c: BatchRecord, now: int)
    requires Inv(d) && SubmitBatch(d, c, now).Ok?
    ensures Inv(SubmitBatch(d, c, now).value) && AllStored(SubmitBatch(d, c, now).value, c.events)
  {
    hide Inv, BatchAt, Publish, PayloadHash, SubmitBatch;
    SubmitKeeps(d, c, now);
    var r := SubmitBatch(d, c, now).value;
    forall k | 0 <= k < |c.events| ensures Holds(r, c.events[k]) { EventStored(d, c, now, k); }
    AllStoredBy(r, c.events);
  }

  lemma AllStoredBy(r: Doc, events: seq<Event>)
    requires Inv(r) && forall k :: 0 <= k < |events| ==> Holds(r, events[k])
    ensures AllStored(r, events)
  {
    hide OutboxOk, SnapshotOk, PatchOk, ZeroOk, PayloadHash;
    forall k | 0 <= k < |events|
      ensures var id := events[k].eventId;
              id in r.receipts && PayloadHash(events[k]) == PayloadHash(r.events[SeqOf(r.receipts[id])])
    {
      assert Holds(r, events[k]);
      assert ReceiptOk(r, SeqOf(r.receipts[events[k].eventId]));
    }
  }

  /** What was there stays; what was not is new, and mentions of one id agree in their payload. */
  lemma EventStored(d: Doc, c: BatchRecord, now: int, k: nat)
    requires Inv(d) && SubmitBatch(d, c, now).Ok? && k < |c.events|
    ensures Holds(SubmitBatch(d, c, now).value, c.events[k])
  {
    hide Inv, PayloadHash, SubmitBatch, BatchAt, Reused, Fresh;
    InvHeld(d);
    NotReused(d, c, now);
    ReceiptsAfter(d, c, now);
    BatchReceipts(d, c, now);
    if c.events[k].eventId !in d.receipts {
      var i := FreshMention(HashEvents(c.events), d.receipts, k);
    }
  }

  /** An id without a receipt is accepted once, with the payload of each of its mentions. */
  lemma FreshMention(ids: seq<Identity>, existing: map<Text, Receipt>, k: nat) returns (i: nat)
    requires k < |ids| && !Reused(ids, existing) && ids[k].event.eventId !in existing
    ensures var accepted := Fresh(ids, existing, |ids|);
            && i < |accepted| && accepted[i].event.eventId == ids[k].event.eventId
            && accepted[i].payloadHash == ids[k].payloadHash
  {
    hide Reused, Fresh, Firsts;
    var firsts, accepted := Firsts(ids, |ids|), Fresh(ids, existing, |ids|);
    FirstsMembers(ids, |ids|);
    FreshMembers(ids, existing, |ids|);
    assert ids[..|ids|] == ids && ids[k] in ids && ids[k].event.eventId in IdSet(firsts);
    var x :| x in firsts && x.event.eventId == ids[k].event.eventId;
    i :| 0 <= i < |accepted| && accepted[i] == x;
    var m :| 0 <= m < |ids| && ids[m] == x;
    SamePayload(ids, existing, m, k);
  }

  lemma SamePayload(ids: seq<Identity>, existing: map<Text, Receipt>, m: nat, k: nat)
    requires m < |ids| && k < |ids| && ids[m].event.eventId == ids[k].event.eventId && !Reused(ids, existing)
    ensures ids[m].payloadHash == ids[k].payloadHash
  {
  }

  lemma NotReused(d: Doc, c: BatchRecord, now: int)
    requires Held(d) && SubmitBatch(d, c, now).Ok?
    ensures BatchAt(d, c, now).Ok? && !Reused(HashEvents(c.events), d.receipts)
    ensures forall k :: 0 <= k < |c.events| && c.events[k].eventId in d.receipts ==> Holds(d, c.events[k])
  {
    hide Publish, PayloadHash, HeadError, Rows, Acks, PredecessorsMatch, HashSource, Fresh, Firsts;
    var ids := HashEvents(c.events);
    forall k | 0 <= k < |c.events| && c.events[k].eventId in d.receipts ensures Holds(d, c.events[k]) {
      assert ids[k] == Identity(c.events[k], PayloadHash(c.events[k]));
    }
  }

  /** The new receipts, by id, carry the hashes of the accepted events. */
  lemma BatchReceipts(d: Doc, c: BatchRecord, now: int)
    requires Held(d) && BatchAt(d, c, now).Ok?
    ensures var ids, added := HashEvents(c.events), ById(BatchAt(d, c, now).value.receipts);
            var accepted := Fresh(ids, d.receipts, |ids|);
            forall i :: 0 <= i < |accepted| ==>
              && accepted[i].event.eventId in added
              && added[accepted[i].event.eventId].payloadHash == accepted[i].payloadHash
  {
    hide HeadError, Reused, PredecessorsMatch, HashSource, PayloadHash, ApplyEvents, Placed, EventIds, BatchRowId, Acks,
         Firsts;
    var ids := HashEvents(c.events);
    var accepted, rs := Fresh(ids, d.receipts, |ids|), BatchAt(d, c, now).value.receipts;
    FreshDistinct(ids, d.receipts, |ids|);
    ByIdHas(rs);
    forall i | 0 <= i < |accepted|
      ensures accepted[i].event.eventId in ById(rs)
      ensures ById(rs)[accepted[i].event.eventId].payloadHash == accepted[i].payloadHash
    {
      assert rs[i].eventId == accepted[i].event.eventId;
      var m :| 0 <= m < |rs| && rs[m] == ById(rs)[rs[i].eventId];
      assert m == i;
    }
  }

  /** A correctly routed envelope with a valid time passes the head checks of a reachable head. */
  lemma RoutedHead(p: Plane, c: BatchRecord, now: int)
    requires PlaneInv(p) && StateError(p, c.placement).None? && c.target == p.target && ValidTime(now)
    ensures p.live.Some? && Inv(p.live.value.doc) && HeadError(c, p.live.value.doc.head, now).None?
  {
    hide PlaneInv, Inv, Gapless, StateError;
    Routed(p, c.placement);
    LiveDoc(p);
    LiveTarget(p);
    InvHeld(p.live.value.doc);
  }

  /** Once its events are stored, by whichever path, an envelope is answered at every later moment
      with their original places, and the branch stays as it is: for a writer that captured at i and
      publishes at j, if the head's version is still the captured one. */
  lemma BatchRetry(start: Plane, actions: seq<Action>, k: nat, i: nat, j: nat, input: BatchRecord, now: int)
    requires Initial(start) && k <= i <= j <= |actions| && CaptureBatch(input).Ok? && ValidTime(now)
    requires input.target == start.target
    requires var p := Run(start, actions)[k];
             && p.live.Some? && Inv(p.live.value.doc) && AllStored(p.live.value.doc, CaptureBatch(input).value.events)
    requires StateError(Run(start, actions)[i], input.placement).None?
    requires var p, q := Run(start, actions)[i], Run(start, actions)[j];
             p.live.Some? && q.live.Some? && p.live.value.doc.head.version == q.live.value.doc.head.version
    ensures var p, q, c := Run(start, actions)[k], Run(start, actions)[j], CaptureBatch(input).value;
            && Gapless(p.live.value.doc) && Held(q.live.value.doc) && BatchAt(q.live.value.doc, c, now).Ok?
            && RetryAnswer(p.live.value.doc, q.live.value.doc, c.events, BatchAt(q.live.value.doc, c, now).value)
            && BatchAttempt(Run(start, actions)[i], q, input, now)
               == Ok(Done(q, Batched(BatchAt(q.live.value.doc, c, now).value.result)))
  {
    hide PlaneInv, PlaneStep, Inv, AllStored, BatchAt, HeadError, Run, Extends, RetryAnswer, Initial, BatchAttempt,
         StateError, CaptureBatch;
    RunSafe(start, actions);
    RunStarts(start, actions);
    var o, p, q := Run(start, actions)[k], Run(start, actions)[i], Run(start, actions)[j];
    var c := CaptureBatch(input).value;
    assert PlaneStep(o, q) && PlaneStep(p, q) && PlaneInv(o) && PlaneInv(p) && PlaneInv(q);
    assert PlaneStep(Run(start, actions)[0], p);
    SameTarget(start, p);
    SameVersionSameDoc(p, q);
    SameRoute(p, q, input.placement);
    RoutedHead(p, c, now);
    InvHeld(o.live.value.doc);
    InvHeld(q.live.value.doc);
    StepExtends(o, q);
    RetryAcknowledges(o.live.value.doc, q.live.value.doc, c, now);
    AnswerHasNoRows(o.live.value.doc, q.live.value.doc, c.events, BatchAt(q.live.value.doc, c, now).value);
    EmptyAnswer(p, q, input, now);
  }

  lemma AnswerHasNoRows(d: Doc, r: Doc, events: seq<Event>, p: PreparedBatch)
    requires Gapless(d) && Held(r) && RetryAnswer(d, r, events, p)
    ensures p.result.snapshot.None?
  {
  }

  /** An empty preparation is the answer. */
  lemma EmptyAnswer(p: Plane, q: Plane, input: BatchRecord, now: int)
    requires p.live.Some? && q.live.Some? && p.live.value.doc == q.live.value.doc && Held(q.live.value.doc)
    requires CaptureBatch(input).Ok? && StateError(p, input.placement).None? && StateError(q, input.placement).None?
    requires BatchAt(q.live.value.doc, CaptureBatch(input).value, now).Ok?
    requires BatchAt(q.live.value.doc, CaptureBatch(input).value, now).value.result.snapshot.None?
    ensures BatchAttempt(p, q, input, now) ==
              Ok(Done(q, Batched(BatchAt(q.live.value.doc, CaptureBatch(input).value, now).value.result)))
  {
    hide BatchAt, StateError;
  }

  /** A batch that the owner accepts has stored its events. */
  lemma AcceptedIsStored(p: Plane, q: Plane, input: BatchRecord, now: int)
    requires PlaneInv(p) && PlaneInv(q) && PlaneStep(p, q) && input.target == q.target
    requires BatchAttempt(p, q, input, now).Ok? && CaptureBatch(input).Ok?
    ensures var r := BatchAttempt(p, q, input, now).value.plane;
            r.live.Some? && Inv(r.live.value.doc) && AllStored(r.live.value.doc, CaptureBatch(input).value.events)
  {
    hide PlaneInv, PlaneStep, Inv, BatchAt, Publish, StateError, AllStored, CaptureBatch, SubmitBatch;
    Routed(p, input.placement);
    Routed(q, input.placement);
    SameVersionSameDoc(p, q);
    LiveDoc(q);
    AttemptSubmits(p, q, input, now);
    SubmittedIsStored(q.live.value.doc, CaptureBatch(input).value, now);
  }

  lemma AttemptSubmits(p: Plane, q: Plane, input: BatchRecord, now: int)
    requires p.live.Some? && q.live.Some? && p.live.value.doc == q.live.value.doc && Inv(q.live.value.doc)
    requires BatchAttempt(p, q, input, now).Ok? && CaptureBatch(input).Ok?
    ensures var r := BatchAttempt(p, q, input, now).value.plane;
            r.live.Some? && SubmitBatch(q.live.value.doc, CaptureBatch(input).value, now) == Ok(r.live.value.doc)
  {
    hide Inv, BatchAt, Publish, StateError, CaptureBatch, OfBatch;
    InvHeld(q.live.value.doc);
  }

  // The 32 attempts ------------------------------------------------------------------------------------

  /** One attempt: the moments it captured and came to publish at, and its clock reading. */
  datatype Attempt = Attempt(captured: nat, published: nat, now: int)

  ghost predicate InOrder(attempts: seq<Attempt>, last: nat) {
    && (forall k :: 0 <= k < |attempts| ==> attempts[k].captured <= attempts[k].published <= last)
    && (forall k :: 0 < k < |attempts| ==> attempts[k - 1].published <= attempts[k].captured)
  }

  /** appendBatch: attempts until one is not turned away by a changed head. */
  ghost function AppendBatch(states: seq<Plane>, attempts: seq<Attempt>, input: BatchRecord): Result<Done>
    requires states != [] && InOrder(attempts, |states| - 1)
    decreases |attempts|
  {
    if attempts == [] then Err(StateUnavailable)
    else
      var a := attempts[0];
      var r := BatchAttempt(states[a.captured], states[a.published], input, a.now);
      if r == Err(StateUnavailable) then
        assert forall k :: 0 <= k < |attempts| - 1 ==> attempts[1..][k] == attempts[k + 1];
        AppendBatch(states, attempts[1..], input)
      else r
  }

  /** Only a changed head turns an attempt away, and then another writer has published. */
  lemma TurnedAway(p: Plane, q: Plane, input: BatchRecord, now: int)
    requires PlaneStep(p, q) && BatchAttempt(p, q, input, now) == Err(StateUnavailable)
    ensures p.live.Some? && q.live.Some?
    ensures p.live.value.doc.head.version.snapshotId < q.live.value.doc.head.version.snapshotId
  {
    hide BatchAt, Extends, CaptureBatch, StateError;
    StateErrorCodes(p, input.placement);
    StateErrorCodes(q, input.placement);
    if p.live.Some? && Held(p.live.value.doc) && CaptureBatch(input).Ok? {
      BatchAtCodes(p.live.value.doc, CaptureBatch(input).value, now);
    }
  }

  lemma StateErrorCodes(p: Plane, placement: Placement)
    ensures StateError(p, placement).None? ==> p.live.Some?
    ensures StateError(p, placement) != Some(StateUnavailable)
  {
  }

  lemma BatchAtCodes(d: Doc, c: BatchRecord, now: int)
    requires Held(d)
    ensures BatchAt(d, c, now) != Err(StateUnavailable)
  {
    hide HeadCoherent, HashSource, Rows, Acks, Fresh, Firsts, Reused, PredecessorsMatch;
  }

  ghost function HeadSnapshot(p: Plane): int { if p.live.Some? then p.live.value.doc.head.version.snapshotId else 0 }

  /** appendBatch gives up only when other writers published during every one of its attempts. */
  lemma {:induction false} GivesUpOnlyUnderContention(states: seq<Plane>, attempts: seq<Attempt>, input: BatchRecord)
    requires Chain(states) && InOrder(attempts, |states| - 1) && attempts != []
    requires AppendBatch(states, attempts, input) == Err(StateUnavailable)
    ensures var first, last := attempts[0].captured, attempts[|attempts| - 1].published;
            HeadSnapshot(states[first]) + |attempts| <= HeadSnapshot(states[last])
    decreases |attempts|
  {
    hide PlaneInv, PlaneStep, BatchAttempt;
    var a, rest := attempts[0], attempts[1..];
    assert PlaneStep(states[a.captured], states[a.published]);
    TurnedAway(states[a.captured], states[a.published], input, a.now);
    if rest != [] {
      assert forall k :: 0 <= k < |rest| ==> rest[k] == attempts[k + 1];
      assert a.published <= rest[0].captured;
      GivesUpOnlyUnderContention(states, rest, input);
      assert PlaneStep(states[a.published], states[rest[0].captured]);
      HeadGrows(states[a.published], states[rest[0].captured]);
    }
  }

  lemma HeadGrows(p: Plane, q: Plane)
    requires PlaneStep(p, q) && p.live.Some?
    ensures HeadSnapshot(p) <= HeadSnapshot(q)
  {
    hide Extends;
  }

  // Facts ----------------------------------------------------------------------------------------------

  /** A fact that is in answers every request that differs at most in the assigned fields, at every
      later moment, with the original receipt; the branch stays as it is. */
  lemma FactRetryLater(start: Plane, actions: seq<Action>, i: nat, j: nat, input: FactCommand, now: int)
    requires Initial(start) && i <= j <= |actions| && CaptureFact(input).Ok?
    requires var p, f := Run(start, actions)[i], CaptureFact(input).value.fact;
             && p.live.Some? && FactIdentity(f) in p.live.value.facts.rows
             && SameRequest(f, p.live.value.facts.rows[FactIdentity(f)].receipt.event.fact)
    requires var q := Run(start, actions)[j];
             StateError(q, input.placement).None? && Authorized(input.actorAccountId, q.live.value.doc.head)
    ensures var l, q, f := Run(start, actions)[i].live.value, Run(start, actions)[j], CaptureFact(input).value.fact;
            FactAt(q, input, now) == Ok(Done(q, Noted(false, l.facts.rows[FactIdentity(f)].receipt)))
  {
    hide PlaneInv, Inv, FactsInv, Captured, SameRequest, FactIdentity, AppendFact, RouteError, Authorized, Run,
         StateError,
         CaptureFact, Initial;
    RunSafe(start, actions);
    var p, q, c := Run(start, actions)[i], Run(start, actions)[j], CaptureFact(input).value;
    assert PlaneStep(p, q) && PlaneInv(q);
    CaptureCaptures(input);
    Routed(q, input.placement);
    LiveFacts(q);
    FactRetry(q.live.value.doc, q.live.value.facts, c, now);
    KnownFact(q, input, now);
  }

  lemma KnownFact(q: Plane, input: FactCommand, now: int)
    requires CaptureFact(input).Ok? && StateError(q, input.placement).None? && q.live.Some?
    requires var r := AppendFact(q.live.value.doc, q.live.value.facts, CaptureFact(input).value, now);
             r.Ok? && !r.value.appended
    ensures var r := AppendFact(q.live.value.doc, q.live.value.facts, CaptureFact(input).value, now);
            FactAt(q, input, now) == Ok(Done(q, Noted(false, r.value.receipt)))
  {
    hide AppendFact, CaptureFact, StateError;
  }

  /** Once appendRuntimeFact has accepted a request, the same request at any later moment of the run
      is answered with the first receipt and changes nothing: still routed, still authorized. */
  lemma FactResubmitted(start: Plane, actions: seq<Action>, i: nat, j: nat, input: FactCommand, t: int, now: int)
    requires Initial(start) && i < j <= |actions| && actions[i] == AddFact(input, t) && input.target == start.target
    requires FactAt(Run(start, actions)[i], input, t).Ok?
    ensures var first := FactAt(Run(start, actions)[i], input, t).value.reply;
            && first.Noted?
            && FactAt(Run(start, actions)[j], input, now)
               == Ok(Done(Run(start, actions)[j], Noted(false, first.factReceipt)))
  {
    hide PlaneInv, PlaneStep, Run, FactAt, Initial;
    RunSafe(start, actions);
    RunStarts(start, actions);
    var p, q, r := Run(start, actions)[i], Run(start, actions)[i + 1], Run(start, actions)[j];
    assert PlaneStep(Run(start, actions)[0], p) && PlaneStep(p, r) && PlaneStep(q, r) && PlaneInv(p) && PlaneInv(r);
    SameTarget(start, p);
    RunNext(start, actions, i);
    FactStepOf(start, actions, i, input, t);
    Resubmitted(p, q, r, input, t, now);
  }

  lemma FactStepOf(start: Plane, actions: seq<Action>, i: nat, input: FactCommand, t: int)
    requires i < |actions| && actions[i] == AddFact(input, t)
    requires var p := Run(start, actions)[i]; input.target == p.target && FactAt(p, input, t).Ok?
    requires var before := Run(start, actions[..i]);
             before[i] == Run(start, actions)[i] && Run(start, actions)[i + 1] == Next(before, actions[i])
    ensures Run(start, actions)[i + 1] == FactAt(Run(start, actions)[i], input, t).value.plane
  {
    hide Run, FactAt;
  }

  lemma Resubmitted(p: Plane, q: Plane, r: Plane, input: FactCommand, t: int, now: int)
    requires PlaneInv(p) && PlaneStep(p, r) && PlaneStep(q, r) && input.target == p.target
    requires FactAt(p, input, t).Ok? && q == FactAt(p, input, t).value.plane
    ensures var first := FactAt(p, input, t).value.reply;
            first.Noted? && FactAt(r, input, now) == Ok(Done(r, Noted(false, first.factReceipt)))
  {
    hide PlaneInv, Inv, FactsInv, AppendFact, CaptureFact, StateError, Extends, Captured, FactIdentity, Intent;
    var c := CaptureFact(input).value;
    Routed(p, input.placement);
    CaptureCaptures(input);
    LiveDoc(p);
    LiveTarget(p);
    LiveFacts(p);
    StepExtends(p, r);
    var l, m := p.live.value, r.live.value;
    AppendKeepsFacts(l.doc, l.facts, c, t);
    AppendedNow(p, input, t);
    KeptRoute(p, r, input.placement);
    Routed(r, input.placement);
    StoredAnswers(l, m, c, AppendFact(l.doc, l.facts, c, t).value, t, now);
    KnownFact(r, input, now);
  }

  lemma AppendedNow(p: Plane, input: FactCommand, t: int)
    requires FactAt(p, input, t).Ok?
    ensures CaptureFact(input).Ok? && StateError(p, input.placement).None? && p.live.Some?
    ensures var l := p.live.value; var r := AppendFact(l.doc, l.facts, CaptureFact(input).value, t);
            && r.Ok? && FactAt(p, input, t).value.reply == Noted(r.value.appended, r.value.receipt)
            && FactAt(p, input, t).value.plane.live == Some(l.(facts := r.value.store))
  {
    hide AppendFact, CaptureFact, FactRowId;
    AppendUnchanged(p.live.value.doc, p.live.value.facts, CaptureFact(input).value, t);
  }

  lemma AppendUnchanged(d: Doc, store: FactStore, c: FactCommand, t: int)
    ensures var r := AppendFact(d, store, c, t); r.Ok? && !r.value.appended ==> r.value.store == store
  {
    hide Intent, FactIdentity, NameTaken, PrepareFact, FactRowId, Authorized;
  }

  /** Routing and ownership do not change over a run. */
  lemma KeptRoute(p: Plane, r: Plane, placement: Placement)
    requires PlaneStep(p, r) && p.live.Some? && r.live.Some? && Extends(p.live.value.doc, r.live.value.doc)
    requires StateError(p, placement).None?
    ensures StateError(r, placement).None?
    ensures forall actor :: Authorized(actor, p.live.value.doc.head) <==> Authorized(actor, r.live.value.doc.head)
  {
    hide Gapless;
    FixedFields(p.live.value.doc.head.branch, r.live.value.doc.head.branch);
  }

  /** The stored row of an accepted request answers it again. */
  lemma StoredAnswers(l: Live, m: Live, c: FactCommand, out: FactOutcome, t: int, now: int)
    requires AppendFact(l.doc, l.facts, c, t) == Ok(out) && FactsExtend(out.store, m.facts)
    requires out.receipt.identity == FactIdentity(c.fact) && out.receipt.identity in out.store.rows
    requires out.store.rows[out.receipt.identity] == FactRow(Intent(c.fact), out.receipt)
    requires RouteError(c.placement, m.doc.head).None?
    requires Authorized(c.actorAccountId, l.doc.head) <==> Authorized(c.actorAccountId, m.doc.head)
    ensures AppendFact(m.doc, m.facts, c, now) == Ok(FactOutcome(m.facts, false, out.receipt))
  {
    hide Intent, FactIdentity, NameTaken, PrepareFact, FactRowId, Authorized, RouteError;
  }
}
