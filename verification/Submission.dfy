/** Prepared commands fit the head they were prepared against, and what a caller sees of retries. */
module Submission {
  import opened Wrappers
  import opened JsText
  import opened BranchState
  import opened BranchCommit
  import opened BranchBatch
  import opened Timeline

  ghost function HeadContent(d: Doc): Text
    requires d.head.version.snapshotId in d.snapshots
  {
    d.snapshots[d.head.version.snapshotId].content
  }

  /** prepareBranchBatch as an owner calls it, on its own head, content and receipts. */
  ghost function BatchAt(d: Doc, command: BatchRecord, committedAt: int): (r: Result<PreparedBatch>)
    requires d.head.version.snapshotId in d.snapshots
  {
    PrepareBatch(command, HashEvents(command.events), d.head, HeadContent(d), d.receipts, committedAt)
  }

  lemma HeadContentHash(d: Doc)
    requires Inv(d)
    ensures HashSource(HeadContent(d)) == d.head.version.sourceContentHash
  {
    assert SnapshotOk(d, d.head.version.snapshotId);
  }

  /** On a head that a run can reach, preparing a batch never reports corruption, and exhaustion
      means exactly that the new events would not fit below the largest safe integer. */
  lemma ReachableHeadErrors(d: Doc, command: BatchRecord, committedAt: int)
    requires Inv(d) && command.target == d.head.target
    ensures var r := BatchAt(d, command, committedAt);
            var n := |Fresh(HashEvents(command.events), d.receipts, |command.events|)|;
            && r != Err(StateCorrupt)
            && (r == Err(DiffSequenceExhausted) ==> n > 0 && d.head.version.eventSeq + n + 1 > MAX_SAFE)
            && (r.Ok? && n > 0 ==> d.head.version.eventSeq + n + 1 <= MAX_SAFE)
  {
    hide Inv, Gapless, Reused, PredecessorsMatch, Rows, Acks, HashSource, Fresh, Firsts;
    InvHeld(d);
    HeadContentHash(d);
  }

  /** The same for the single-event path. */
  lemma ReachableCommitErrors(d: Doc, command: AppendRecord, committedAt: int)
    requires Inv(d) && command.target == d.head.target
    ensures var r := PrepareCommit(command, d.head, HeadContent(d), committedAt);
            r != Err(StateCorrupt) && (r == Err(DiffSequenceExhausted) ==> d.head.version.eventSeq + 2 > MAX_SAFE)
  {
    hide Inv, Gapless, HashSource, ApplyOps;
    InvHeld(d);
    HeadContentHash(d);
  }

  lemma CommitFits(d: Doc, command: AppendRecord, committedAt: int)
    requires Inv(d) && command.payloadHash == PayloadHash(command.event) && command.event.eventId !in d.receipts
    requires PrepareCommit(command, d.head, HeadContent(d), committedAt).Ok?
    ensures Fits(d, OfCommit(PrepareCommit(command, d.head, HeadContent(d), committedAt).value))
  {
    hide Inv, EventsFit, PayloadHash, HashSource, ApplyOps, ApplyEvents, EventIds, Gapless;
    InvHeld(d);
    var p := PrepareCommit(command, d.head, HeadContent(d), committedAt).value;
    assert command.placement == d.head.placement;
    SameHash(command.event, p.event);
    OneEvent(HeadContent(d), p.event);
    CommitEventsFit(d, p);
  }

  lemma NamedSeq(r: Receipt, n: int)
    requires r.eventSeq == Some(n)
    ensures SeqOf(r) == n
  {
  }

  lemma SameHash(a: Event, b: Event)
    requires b == a.(seq_ := b.seq_, snapshotId := b.snapshotId)
    ensures PayloadHash(a) == PayloadHash(b)
  {
  }

  lemma OneEvent(content: Text, e: Event)
    ensures ApplyEvents(content, [e]) == ApplyOps(content, e.ops) && EventIds([e]) == [e.eventId]
  {
    assert [e][..0] == [];
  }

  lemma CommitEventsFit(d: Doc, p: PreparedCommit)
    requires p.event.seq_ == d.head.version.eventSeq + 1 && p.event.snapshotId == Some(d.head.version.snapshotId + 1)
    requires p.event.eventId !in d.receipts && p.receipt.payloadHash == PayloadHash(p.event)
    requires p.receipt.eventId == p.event.eventId && SeqOf(p.receipt) == p.event.seq_
    requires p.receipt.target == d.head.target && p.receipt.placement == d.head.placement
    ensures EventsFit(d, OfCommit(p))
  {
  }

  lemma BatchFits(d: Doc, command: BatchRecord, committedAt: int)
    requires Inv(d) && BatchAt(d, command, committedAt).Ok?
             && BatchAt(d, command, committedAt).value.result.snapshot.Some?
    ensures BatchAt(d, command, committedAt).value.outbox.Some?
    ensures Fits(d, OfBatch(BatchAt(d, command, committedAt).value))
    ensures var p := BatchAt(d, command, committedAt).value;
            p.outbox.value.deduplicated == p.result.deduplicatedCount == |command.events| - |p.receipts|
  {
    hide Inv, Fits, PayloadHash, HashSource, Gapless, Distinct, Placed, ReceiptsFor, Acks, ApplyEvents, Reused,
         PredecessorsMatch;
    InvHeld(d);
    var ids := HashEvents(command.events);
    var accepted := Fresh(ids, d.receipts, |ids|);
    FreshAccepted(ids, d.receipts, command.events);
    RowsFit(d, command, accepted, committedAt);
  }

  lemma FreshAccepted(ids: seq<Identity>, existing: map<Text, Receipt>, events: seq<Event>)
    requires ids == HashEvents(events)
    ensures var accepted := Fresh(ids, existing, |ids|);
            && Distinct(accepted)
            && (forall i :: 0 <= i < |accepted| ==>
                  accepted[i].event.eventId !in existing && accepted[i].payloadHash == PayloadHash(accepted[i].event))
  {
    hide PayloadHash, Distinct;
    var accepted := Fresh(ids, existing, |ids|);
    FreshDistinct(ids, existing, |ids|);
    FreshMembers(ids, existing, |ids|);
    FirstsMembers(ids, |ids|);
    forall i | 0 <= i < |accepted|
      ensures accepted[i].event.eventId !in existing && accepted[i].payloadHash == PayloadHash(accepted[i].event)
    {
      assert accepted[i] in accepted;
      assert accepted[i] in ids;
    }
  }

  lemma RowsFit(d: Doc, command: BatchRecord, accepted: seq<Identity>, committedAt: int)
    requires Inv(d) && accepted != [] && Distinct(accepted)
    requires command.target == d.head.target && command.placement == d.head.placement
    requires d.head.version.eventSeq + |accepted| + 1 <= MAX_SAFE
    requires forall i :: 0 <= i < |accepted| ==>
               accepted[i].event.eventId !in d.receipts && accepted[i].payloadHash == PayloadHash(accepted[i].event)
    ensures Fits(d, OfBatch(Rows(command, accepted, d.head, HeadContent(d), committedAt)))
  {
    hide Inv, EventsFit, PayloadHash, HashSource, ApplyEvents, EventIds, Gapless, Placed, ReceiptsFor, Distinct;
    InvHeld(d);
    var p := OfBatch(Rows(command, accepted, d.head, HeadContent(d), committedAt));
    var m, n := d.head.version.snapshotId, d.head.version.eventSeq;
    assert p.events == Placed(accepted, n, m + 1);
    assert p.receipts == ReceiptsFor(command, accepted, n, p.version);
    RowsEventsFit(d, command, accepted, p);
  }

  lemma RowsEventsFit(d: Doc, command: BatchRecord, accepted: seq<Identity>, p: Publication)
    requires accepted != [] && Distinct(accepted)
    requires command.target == d.head.target && command.placement == d.head.placement
    requires forall i :: 0 <= i < |accepted| ==>
               accepted[i].event.eventId !in d.receipts && accepted[i].payloadHash == PayloadHash(accepted[i].event)
    requires p.events == Placed(accepted, d.head.version.eventSeq, d.head.version.snapshotId + 1)
    requires p.receipts == ReceiptsFor(command, accepted, d.head.version.eventSeq, p.version)
    ensures EventsFit(d, p)
  {
    hide PayloadHash, SeqOf;
    forall i | 0 <= i < |p.events| ensures PayloadHash(p.events[i]) == PayloadHash(accepted[i].event) {
      SameHash(accepted[i].event, p.events[i]);
    }
    forall i | 0 <= i < |p.receipts| ensures SeqOf(p.receipts[i]) == d.head.version.eventSeq + 1 + i {
      NamedSeq(p.receipts[i], d.head.version.eventSeq + 1 + i);
    }
  }

  // Exactly once --------------------------------------------------------------------------

  /** No event id is stored twice. */
  lemma StoredOnce(d: Doc, i: int, j: int)
    requires Inv(d) && i in d.events && j in d.events && d.events[i].eventId == d.events[j].eventId
    ensures i == j
  {
    assert ReceiptOk(d, i) && ReceiptOk(d, j);
  }

  /** Every event of the envelope was stored before, by whichever path. */
  ghost predicate AllStored(d: Doc, events: seq<Event>)
    requires Inv(d)
  {
    forall k :: 0 <= k < |events| ==>
      events[k].eventId in d.receipts
      && PayloadHash(events[k]) == PayloadHash(d.events[SeqOf(d.receipts[events[k].eventId])])
  }

  /** Duplicates all, each naming where `d` stores its event, and one for every submitted event. */
  ghost predicate AcksStored(d: Doc, acks: seq<Ack>, events: seq<Event>)
    requires Gapless(d)
  {
    && (forall a :: a in acks ==>
          && a.status == Duplicate && 0 <= a.seq_ <= d.head.version.eventSeq
          && d.events[a.seq_].eventId == a.eventId && d.events[a.seq_].snapshotId == Some(a.snapshotId))
    && (forall k :: 0 <= k < |events| ==> exists a :: a in acks && a.eventId == events[k].eventId)
  }

  /** The answer to a retry: nothing to publish, everything deduplicated, and acknowledgements of
      the original sequences and snapshots, for every submitted event. */
  ghost predicate RetryAnswer(d: Doc, r: Doc, events: seq<Event>, p: PreparedBatch)
    requires Gapless(d) && Held(r)
  {
    && p.result.snapshot.None? && p.outbox.None? && p.receipts == []
    && p.version == r.head.version && p.result.content == HeadContent(r) && p.result.deduplicatedCount == |events|
    && AcksStored(d, p.result.acknowledgements, events)
  }

  /** A retried envelope at any later head changes nothing and acknowledges, once per distinct
      id, the sequence and snapshot of the original publication. */
  lemma RetryAcknowledges(d: Doc, r: Doc, command: BatchRecord, committedAt: int)
    requires Inv(d) && Inv(r) && Extends(d, r) && AllStored(d, command.events)
    requires HeadError(command, r.head, committedAt).None?
    ensures BatchAt(r, command, committedAt).Ok?
            && RetryAnswer(d, r, command.events, BatchAt(r, command, committedAt).value)
  {
    hide Inv, AllStored, HeadError, BatchAt, Reused, Extends, Acks, AckFor;
    InvHeld(d);
    InvHeld(r);
    StoredAgree(d, r, command.events);
    RetryIsEmpty(r, command, committedAt);
    RetryAcks(d, r, command.events);
  }

  /** The envelope's ids and hashes all agree with stored receipts, so nothing is new. */
  lemma RetryIsEmpty(r: Doc, command: BatchRecord, committedAt: int)
    requires Inv(r) && HeadError(command, r.head, committedAt).None?
    requires var ids := HashEvents(command.events);
             !Reused(ids, r.receipts) && forall k :: 0 <= k < |ids| ==> ids[k].event.eventId in r.receipts
    ensures var ids := HashEvents(command.events);
            && Covered(Firsts(ids, |ids|), r.receipts, map[])
            && BatchAt(r, command, committedAt) == Ok(
                 PreparedBatch(BatchResult(r.head.branch, None, HeadContent(r), [], |command.events|,
                                           r.head.version.eventSeq + 1,
                                           Acks(Firsts(ids, |ids|), r.receipts, map[])),
                               r.head.version, [], None))
  {
    hide Inv, Gapless, HeadError, PayloadHash, HashSource, Reused, PrepareBatch, Acks, Covered, Fresh, Firsts;
    InvHeld(r);
    var ids := HashEvents(command.events);
    NothingFresh(ids, r.receipts, |ids|);
    FirstsCovered(ids, r.receipts, []);
    HeadContentHash(r);
    NothingToAdd(command, ids, r.head, HeadContent(r), r.receipts, committedAt);
  }

  lemma NothingToAdd(command: BatchRecord, ids: seq<Identity>, head: Head, content: Text, existing: map<Text, Receipt>,
                     committedAt: int)
    requires HeadError(command, head, committedAt).None? && !Reused(ids, existing) && Fresh(ids, existing, |ids|) == []
    requires HashSource(content) == head.version.sourceContentHash && Covered(Firsts(ids, |ids|), existing, map[])
    ensures PrepareBatch(command, ids, head, content, existing, committedAt) == Ok(
              PreparedBatch(BatchResult(head.branch, None, content, [], |command.events|, head.version.eventSeq + 1,
                                        Acks(Firsts(ids, |ids|), existing, map[])),
                            head.version, [], None))
  {
  }

  lemma StoredAgree(d: Doc, r: Doc, events: seq<Event>)
    requires Inv(d) && Extends(d, r) && AllStored(d, events)
    ensures var ids := HashEvents(events);
            && (forall k :: 0 <= k < |ids| ==> ids[k].event.eventId in r.receipts)
            && !Reused(ids, r.receipts)
  {
    var ids := HashEvents(events);
    forall k | 0 <= k < |ids|
      ensures ids[k].event.eventId in r.receipts && r.receipts[ids[k].event.eventId].payloadHash == ids[k].payloadHash {
      assert ReceiptOk(d, SeqOf(d.receipts[ids[k].event.eventId]));
    }
  }

  lemma RetryAcks(d: Doc, r: Doc, events: seq<Event>)
    requires Inv(d) && Gapless(d) && Extends(d, r) && AllStored(d, events)
    requires var ids := HashEvents(events); Covered(Firsts(ids, |ids|), r.receipts, map[])
    ensures var ids := HashEvents(events); AcksStored(d, Acks(Firsts(ids, |ids|), r.receipts, map[]), events)
  {
    hide Inv, Extends, PayloadHash;
    InvHeld(d);
    StoredIds(d, r, events);
    var ids := HashEvents(events);
    var firsts := Firsts(ids, |ids|);
    var acks := Acks(firsts, r.receipts, map[]);
    FirstsMembers(ids, |ids|);
    assert ids[..|ids|] == ids;
    forall i | 0 <= i < |acks|
      ensures var a := acks[i];
              && a.status == Duplicate && 0 <= a.seq_ <= d.head.version.eventSeq
              && d.events[a.seq_].eventId == a.eventId && d.events[a.seq_].snapshotId == Some(a.snapshotId)
    {
      assert firsts[i] in firsts && firsts[i] in ids;
      StoredAck(d, r, firsts[i].event.eventId);
    }
    forall k | 0 <= k < |events| ensures exists a :: a in acks && a.eventId == events[k].eventId {
      assert ids[k] in ids && ids[k].event.eventId in IdSet(firsts);
      var i :| 0 <= i < |firsts| && firsts[i].event.eventId == ids[k].event.eventId;
      assert acks[i] in acks;
    }
  }

  lemma StoredIds(d: Doc, r: Doc, events: seq<Event>)
    requires Inv(d) && Extends(d, r) && AllStored(d, events)
    ensures forall k :: 0 <= k < |events| ==> events[k].eventId in d.receipts && events[k].eventId in r.receipts
    ensures forall id :: id in d.receipts ==> id in r.receipts
  {
    hide PayloadHash, Gapless;
  }

  /** The receipt of a stored id names the event's place. */
  lemma StoredAck(d: Doc, r: Doc, id: Text)
    requires Inv(d) && Extends(d, r) && id in d.receipts
    ensures r.receipts[id] == d.receipts[id]
    ensures var q := d.receipts[id];
            && 0 <= SeqOf(q) <= d.head.version.eventSeq && d.events[SeqOf(q)].eventId == id
            && d.events[SeqOf(q)].snapshotId == Some(q.version.snapshotId)
  {
    var i := SeqOf(d.receipts[id]);
    assert ReceiptOk(d, i);
    assert SnapshotOk(d, d.events[i].snapshotId.value);
  }

  lemma {:induction false} NothingFresh(ids: seq<Identity>, existing: map<Text, Receipt>, n: nat)
    requires n <= |ids| && forall k :: 0 <= k < |ids| ==> ids[k].event.eventId in existing
    ensures Fresh(ids, existing, n) == []
  {
    if n > 0 { NothingFresh(ids, existing, n - 1); }
  }
}
