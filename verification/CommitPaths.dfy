/** The two commit paths: an event appended on its own, and the same event as a batch of one. */
module CommitPaths {
  import opened Wrappers
  import opened JsText
  import opened BranchState
  import opened BranchCommit
  import opened BranchBatch
  import opened Timeline
  import opened Submission
  import opened BatchFusion
  import opened StatePlane
  import opened Runs

  ghost function AsBatch(c: AppendRecord): BatchRecord { BatchRecord(c.target, c.placement, [c.event]) }

  /** The receipt as the batch path writes it, with its event's own sequence. */
  ghost function Numbered(r: Receipt): Receipt { r.(eventSeq := Some(SeqOf(r))) }

  /** The outbox row of a batch that adds the one event of receipt `r`. */
  ghost function OneEventRow(r: Receipt): OutboxRow {
    var v := r.version;
    BatchRow(BatchRowId(r.target, v.snapshotId), r.target, r.placement, v, v.snapshotId - 1, [r.eventId],
             [Numbered(r)], 0, v.eventSeq + 1)
  }

  /** Two publications of one event that differ in the receipt's own sequence and the outbox row alone. */
  ghost predicate SamePublication(p: Publication, q: Publication) {
    && |p.receipts| == 1 && var r := p.receipts[0];
       && p.row == CommitRow(CommitRowId(r.target, r.eventId), r)
       && q == p.(receipts := [Numbered(r)], row := OneEventRow(r))
  }

  /** The two preparations of a new event at the head it expects are refused alike, and what they
      prepare differs in the receipt's own sequence and the outbox row alone. */
  lemma PreparedAlike(d: Doc, c: AppendRecord, now: int)
    requires Inv(d) && c.event.eventId !in d.receipts && c.expected == d.head.version
    requires c.payloadHash == PayloadHash(c.event) && FollowsSeq(c.event) == Some(c.expected.eventSeq)
    ensures Held(d)
    ensures var a, b := PrepareCommit(c, d.head, HeadContent(d), now), BatchAt(d, AsBatch(c), now);
            && (a.Ok? <==> b.Ok?) && (a.Err? ==> b == Err(a.code))
            && (a.Ok? ==>
                  && b.value.result.snapshot.Some? && b.value.outbox.Some?
                  && SamePublication(OfCommit(a.value), OfBatch(b.value)))
  {
    hide Inv, HashSource, PayloadHash, PrepareBatch, Rows, PrepareCommit, Gapless, SamePublication, HeadOk, HeadError,
         OfCommit;
    InvHeld(d);
    HeadContentHash(d);
    var one := AsBatch(c);
    CommitErrors(c, d.head, HeadContent(d), now);
    OneRefused(d, c, now);
    if HeadError(one, d.head, now).None? && d.head.version.eventSeq + 2 <= MAX_SAFE {
      PrepareOne(one, c.event, d.head, HeadContent(d), d.receipts, now);
      OneIdentity(c.event, d.receipts);
      RowsAlike(c, d.head, HeadContent(d), now);
    }
  }

  /** At the head it expects, a commit is refused for the reasons of a batch. */
  lemma CommitErrors(c: AppendRecord, head: Head, content: Text, now: int)
    requires HeadOk(head) && c.expected == head.version && HashSource(content) == head.version.sourceContentHash
    ensures var a, error := PrepareCommit(c, head, content, now), HeadError(AsBatch(c), head, now);
            && (error.Some? ==> a == Err(error.value))
            && (error.None? && head.version.eventSeq + 2 > MAX_SAFE ==> a == Err(DiffSequenceExhausted))
            && (error.None? && head.version.eventSeq + 2 <= MAX_SAFE ==> a.Ok?)
  {
    hide HashSource, ApplyOps, CommitRowId;
  }

  lemma OneRefused(d: Doc, c: AppendRecord, now: int)
    requires Held(d) && c.event.eventId !in d.receipts && FollowsSeq(c.event) == Some(d.head.version.eventSeq)
    requires HashSource(HeadContent(d)) == d.head.version.sourceContentHash && HeadOk(d.head)
    ensures var error := HeadError(AsBatch(c), d.head, now);
            && (error.Some? ==> BatchAt(d, AsBatch(c), now) == Err(error.value))
            && (error.None? && d.head.version.eventSeq + 2 > MAX_SAFE ==>
                  BatchAt(d, AsBatch(c), now) == Err(DiffSequenceExhausted))
  {
    hide HashSource, PayloadHash, Rows, Acks, Firsts, Fresh, Reused, HeadError;
    OneIdentity(c.event, d.receipts);
  }

  lemma RowsAlike(c: AppendRecord, head: Head, content: Text, now: int)
    requires PrepareCommit(c, head, content, now).Ok? && c.payloadHash == PayloadHash(c.event)
    ensures SamePublication(
              OfCommit(PrepareCommit(c, head, content, now).value),
              OfBatch(Rows(AsBatch(c), [Identity(c.event, c.payloadHash)], head, content, now)))
  {
    hide HashSource, PayloadHash, ApplyOps, HeadCoherent, CommitRowId, BatchRowId;
    var x := Identity(c.event, c.payloadHash);
    OneRow(AsBatch(c), x, head, content, now);
    var p := OfBatch(Rows(AsBatch(c), [x], head, content, now));
    assert p.events == [p.events[0]] && p.receipts == [p.receipts[0]];
    OneEvent(content, p.events[0]);
  }

  /** A publication of one event by either path, into document `d`. */
  ghost predicate StoredAlike(d: Doc, a: Doc, b: Doc, r: Receipt) {
    && b.head == a.head && b.snapshots == a.snapshots && b.metadata == a.metadata && b.events == a.events
    && a.receipts == d.receipts[r.eventId := r] && b.receipts == d.receipts[r.eventId := Numbered(r)]
    && a.outbox == d.outbox[CommitRowId(r.target, r.eventId) := CommitRow(CommitRowId(r.target, r.eventId), r)]
    && b.outbox == d.outbox[BatchRowId(r.target, r.version.snapshotId) := OneEventRow(r)]
  }

  lemma PublishedAlike(d: Doc, p: Publication, q: Publication)
    requires SamePublication(p, q)
    ensures StoredAlike(d, Publish(d, p), Publish(d, q), p.receipts[0])
  {
    hide CommitRowId, BatchRowId, WithEvents;
    var r := p.receipts[0];
    OneReceipt(d.receipts, r);
    OneReceipt(d.receipts, Numbered(r));
    assert p.receipts == [r];
  }

  lemma OneReceipt(receipts: map<Text, Receipt>, r: Receipt)
    ensures WithReceipts(receipts, [r]) == receipts[r.eventId := r]
  {
    assert [r][..0] == [];
  }

  /** A writer that names the live head may take either path: for an event that is not stored yet,
      append and appendBatch are refused alike or both publish, and then the documents are the same
      but for the number in the receipt and the outbox row; facts and memory are left alone. */
  lemma PathsAgree(p: Plane, q: Plane, input: AppendRecord, now: int)
    requires PlaneInv(p) && PlaneInv(q) && PlaneStep(p, q) && input.target == q.target && FromRecord(input).Ok?
    requires p.live.Some? && q.live.Some? && p.live.value.doc.head.version == q.live.value.doc.head.version
    requires input.expected == q.live.value.doc.head.version
    requires input.event.eventId !in q.live.value.doc.receipts
    ensures var a, b := CommitAt(p, q, input, now), BatchAttempt(p, q, AsBatch(input), now);
            && (a.Ok? <==> b.Ok?) && (a.Err? ==> b == Err(a.code))
            && (a.Ok? ==>
                  && a.value.reply.Appended? && a.value.reply.accepted && b.value.reply.Batched?
                  && a.value.plane.live.Some? && b.value.plane.live.Some?
                  && var l, m := a.value.plane.live.value, b.value.plane.live.value;
                     && StoredAlike(q.live.value.doc, l.doc, m.doc, a.value.reply.receipt)
                     && l.facts == m.facts && l.memory == m.memory)
  {
    hide PlaneInv, PlaneStep, Inv, FromRecord, CaptureBatch, StateError, BatchAt, PrepareCommit, Publish, OfBatch,
         StoredAlike, SamePublication, PayloadHash;
    SameVersionSameDoc(p, q);
    LiveDoc(q);
    CapturedAlike(input);
    SameRoute(p, q, input.placement);
    CommitKeeps(p, q, input, now);
    BatchKeeps(p, q, AsBatch(input), now);
    var c, d := FromRecord(input).value, q.live.value.doc;
    PreparedAlike(d, c, now);
    var a, b := PrepareCommit(c, d.head, HeadContent(d), now), BatchAt(d, AsBatch(c), now);
    if a.Ok? {
      PublishedAlike(d, OfCommit(a.value), OfBatch(b.value));
    }
  }

  /** Both readers keep the command but for the fields that the owner assigns. */
  lemma CapturedAlike(input: AppendRecord)
    requires FromRecord(input).Ok?
    ensures CaptureBatch(AsBatch(input)) == Ok(AsBatch(FromRecord(input).value))
    ensures FromRecord(input).value.event.eventId == input.event.eventId
  {
    hide PayloadHash;
    var r := CaptureBatch(AsBatch(input));
    assert [input.event][0] == input.event;
    assert r.value.events == [Unassigned(input.event)];
  }

  // When a preparation is accepted -------------------------------------------------------------------

  /** A head whose branch is not the one it is filed under, or is at another version. */
  ghost predicate Incoherent(head: Head) {
    || head.branch.rootDropId != head.target.rootDropId || head.branch.branchId != head.target.branchId
    || head.branch.headSnapshotId != head.version.snapshotId || head.branch.headEventSeq != head.version.eventSeq
  }

  /** Nothing is prepared against an incoherent head, or one of another branch. */
  lemma IncoherentRefused(c: AppendRecord, head: Head, content: Text, existing: map<Text, Receipt>, now: int)
    requires Incoherent(head) || head.target != c.target
    ensures PrepareCommit(c, head, content, now) == Err(StateCorrupt)
    ensures PrepareBatch(AsBatch(c), HashEvents([c.event]), head, content, existing, now) == Err(StateCorrupt)
  {
    hide PayloadHash, HashSource, Rows, Acks, Firsts, Fresh, Reused, PredecessorsMatch;
  }

  /** On a reachable head, a commit is accepted exactly for this branch, placement and version, at a
      valid time, while there are numbers left. */
  lemma CommitAccepts(d: Doc, c: AppendRecord, now: int)
    requires Inv(d)
    ensures Held(d)
    ensures PrepareCommit(c, d.head, HeadContent(d), now).Ok? <==>
              && c.target == d.head.target && c.placement == d.head.placement && c.expected == d.head.version
              && 0 <= now <= MAX_SAFE && d.head.version.eventSeq + 2 <= MAX_SAFE
  {
    hide Inv, HashSource, ApplyOps, CommitRowId, Gapless;
    InvHeld(d);
    HeadContentHash(d);
    assert c.placement == d.head.placement <==>
        c.placement.routingVersion == d.head.placement.routingVersion
        && c.placement.generation == d.head.placement.generation;
  }

  /** And an envelope: no id stands for two payloads, and every new event that names a predecessor
      names the one it gets. */
  lemma BatchAccepts(d: Doc, c: BatchRecord, now: int)
    requires Inv(d)
    ensures Held(d)
    ensures var ids := HashEvents(c.events); var accepted := Fresh(ids, d.receipts, |ids|);
            BatchAt(d, c, now).Ok? <==>
              && c.target == d.head.target && c.placement == d.head.placement && 0 <= now <= MAX_SAFE
              && !Reused(ids, d.receipts) && PredecessorsMatch(accepted, d.head.version.eventSeq)
              && (accepted != [] ==> d.head.version.eventSeq + |accepted| + 1 <= MAX_SAFE)
  {
    hide Inv, HashSource, Rows, Acks, Firsts, Fresh, Reused, PredecessorsMatch, Gapless;
    InvHeld(d);
    HeadContentHash(d);
    assert c.placement == d.head.placement <==>
        c.placement.routingVersion == d.head.placement.routingVersion
        && c.placement.generation == d.head.placement.generation;
  }
}
