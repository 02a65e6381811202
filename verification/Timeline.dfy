/** The document timeline of one branch: what an owner stores, how it publishes prepared rows,
    and what every publication keeps. */
module Timeline {
  import opened Wrappers
  import opened JsText
  import opened BranchState
  import opened BranchCommit
  import opened BranchBatch

  /** A materialised snapshot with its exact version. */
  datatype Stored = Stored(version: Version, content: Text)

  datatype Doc = Doc(
    head: Head, snapshots: map<int, Stored>, metadata: map<int, Snapshot>,
    events: map<int, Event>, receipts: map<Text, Receipt>, outbox: map<Text, OutboxRow>)

  /** The rows of one publication, whichever path prepared them. */
  datatype Publication = Publication(
    branch: Branch, version: Version, snapshot: Snapshot, content: Text,
    events: seq<Event>, receipts: seq<Receipt>, row: OutboxRow)

  function OfCommit(p: PreparedCommit): Publication {
    Publication(p.branch, p.receipt.version, p.snapshot, p.content, [p.event], [p.receipt], p.outbox)
  }

  function OfBatch(p: PreparedBatch): Publication
    requires p.result.snapshot.Some? && p.outbox.Some?
  {
    Publication(p.result.branch, p.version, p.result.snapshot.value, p.result.content,
                p.result.acceptedEvents, p.receipts, p.outbox.value)
  }

  function WithEvents(events: map<int, Event>, added: seq<Event>): map<int, Event> {
    if added == [] then events
    else WithEvents(events, added[..|added| - 1])[added[|added| - 1].seq_ := added[|added| - 1]]
  }

  function WithReceipts(receipts: map<Text, Receipt>, added: seq<Receipt>): map<Text, Receipt> {
    if added == [] then receipts
    else WithReceipts(receipts, added[..|added| - 1])[added[|added| - 1].eventId := added[|added| - 1]]
  }

  /** All rows of a publication are stored together. */
  function Publish(d: Doc, p: Publication): Doc {
    Doc(Head(d.head.target, d.head.placement, p.branch, p.version),
        d.snapshots[p.snapshot.snapshotId := Stored(p.version, p.content)],
        d.metadata[p.snapshot.snapshotId := p.snapshot],
        WithEvents(d.events, p.events),
        WithReceipts(d.receipts, p.receipts),
        d.outbox[p.row.id := p.row])
  }

  // The invariant -------------------------------------------------------------------------

  /** Heads a run can reach: within bounds, with no snapshot that holds no event. */
  ghost predicate HeadOk(h: Head) {
    var m, n := h.version.snapshotId, h.version.eventSeq;
    && HeadCoherent(h)
    && 0 <= m && -1 <= n && m - 1 <= n && n + 1 <= MAX_SAFE
    && (m == 0 <==> n == -1)
  }

  ghost predicate Gapless(d: Doc) {
    && (forall i :: i in d.events <==> 0 <= i <= d.head.version.eventSeq)
    && (forall k :: k in d.snapshots <==> 0 <= k <= d.head.version.snapshotId)
    && (forall k :: k in d.metadata <==> 0 <= k <= d.head.version.snapshotId)
  }

  /** The text after the first `n` events. */
  ghost function Replay(base: Text, events: map<int, Event>, n: nat): Text
    requires forall i :: 0 <= i < n ==> i in events
  {
    if n == 0 then base else ApplyOps(Replay(base, events, n - 1), events[n - 1].ops)
  }

  /** Snapshot k holds the replay of all events up to its sequence, under its own hash. */
  ghost predicate SnapshotOk(d: Doc, k: int)
    requires Gapless(d) && k in d.snapshots
  {
    var s := d.snapshots[k];
    && s.version.snapshotId == k && -1 <= s.version.eventSeq <= d.head.version.eventSeq
    && s.version.sourceContentHash == HashSource(s.content)
    && s.content == Replay(d.snapshots[0].content, d.events, s.version.eventSeq + 1)
  }

  /** Snapshot k's patch range starts right after its parent's and holds exactly its events. */
  ghost predicate PatchOk(d: Doc, k: int)
    requires Gapless(d) && 1 <= k <= d.head.version.snapshotId
  {
    var s, p, m := d.snapshots[k].version.eventSeq, d.snapshots[k - 1].version.eventSeq, d.metadata[k];
    && p < s
    && m.snapshotId == k && m.parentSnapshotId == Some(k - 1) && m.seq_ == k && m.target == d.head.target
    && m.checkpointed
    && m.patchStartSeq == Some(p + 1) && m.patchEndSeq == Some(s)
    && m.sourceContentHash == d.snapshots[k].version.sourceContentHash
    && m.textLength == |d.snapshots[k].content|
    && |m.eventIds| == s - p
    && (forall i :: p < i <= s && 0 <= i <= d.head.version.eventSeq ==>
          m.eventIds[i - p - 1] == d.events[i].eventId && d.events[i].snapshotId == Some(k))
  }

  /** Snapshot zero holds no event. */
  ghost predicate ZeroOk(d: Doc)
    requires 0 in d.metadata && 0 in d.snapshots
  {
    var m := d.metadata[0];
    && m.snapshotId == 0 && m.parentSnapshotId.None? && m.seq_ == 0 && m.target == d.head.target && m.checkpointed
    && m.eventIds == [] && m.patchStartSeq.None? && m.patchEndSeq.None?
    && m.textLength == |d.snapshots[0].content| && m.sourceContentHash == d.snapshots[0].version.sourceContentHash
    && m.createdAt == d.head.branch.createdAt
  }

  ghost predicate SnapshotsOk(d: Doc) {
    && Gapless(d) && HeadOk(d.head)
    && ZeroOk(d)
    && (d.head.version.snapshotId > 0 ==> d.metadata[d.head.version.snapshotId].createdAt == d.head.branch.updatedAt)
    && d.snapshots[0].version.eventSeq == -1
    && d.snapshots[d.head.version.snapshotId].version == d.head.version
    && (forall k :: 0 <= k <= d.head.version.snapshotId ==> SnapshotOk(d, k))
    && (forall k :: 1 <= k <= d.head.version.snapshotId ==> PatchOk(d, k))
  }

  /** The receipt of stored event i, under its id. */
  ghost predicate ReceiptOk(d: Doc, i: int)
    requires Gapless(d) && i in d.events
  {
    var e := d.events[i];
    && e.seq_ == i && e.eventId in d.receipts
    && e.snapshotId.Some? && 1 <= e.snapshotId.value <= d.head.version.snapshotId
    && var r := d.receipts[e.eventId];
       && SeqOf(r) == i && r.eventId == e.eventId && r.payloadHash == PayloadHash(e)
       && r.version == d.snapshots[e.snapshotId.value].version
       && r.target == d.head.target && r.placement == d.head.placement
  }

  ghost predicate ReceiptsOk(d: Doc)
    requires Gapless(d)
  {
    && (forall i :: 0 <= i <= d.head.version.eventSeq ==> ReceiptOk(d, i))
    && (forall id :: id in d.receipts ==>
          0 <= SeqOf(d.receipts[id]) <= d.head.version.eventSeq && d.events[SeqOf(d.receipts[id])].eventId == id)
  }

  /** A batch row repeats its snapshot: version, parent, event ids and their stored receipts. */
  ghost predicate BatchRowOk(d: Doc, row: OutboxRow)
    requires row.BatchRow?
  {
    var k := row.version.snapshotId;
    && k in d.snapshots && k in d.metadata
    && row.target == d.head.target && row.placement == d.head.placement
    && row.version == d.snapshots[k].version && row.parentSnapshotId == k - 1
    && row.totalStored == row.version.eventSeq + 1
    && row.eventIds == d.metadata[k].eventIds && |row.receipts| == |row.eventIds|
    && (forall i :: 0 <= i < |row.receipts| ==>
          row.receipts[i].eventId == row.eventIds[i] && row.eventIds[i] in d.receipts
          && d.receipts[row.eventIds[i]] == row.receipts[i])
  }

  /** Every outbox row belongs to this branch: a commit row to a stored event, a batch row to a
      stored snapshot. */
  ghost predicate RowOk(d: Doc, id: Text)
    requires id in d.outbox
  {
    match d.outbox[id]
    case CommitRow(_, r) => id == CommitRowId(d.head.target, r.eventId) && r.eventId in d.receipts
    && d.receipts[r.eventId] == r
    case BatchRow(_, _, _, v, _, _, _, _, _) =>
      id == BatchRowId(d.head.target, v.snapshotId) && 1 <= v.snapshotId <= d.head.version.snapshotId
      && BatchRowOk(d, d.outbox[id])
  }

  ghost predicate OutboxOk(d: Doc) {
    && |d.outbox| == d.head.version.snapshotId
    && forall id :: id in d.outbox ==> RowOk(d, id)
  }

  ghost predicate Inv(d: Doc) {
    SnapshotsOk(d) && ReceiptsOk(d) && OutboxOk(d)
  }

  ghost predicate Held(d: Doc) { d.head.version.snapshotId in d.snapshots }

  lemma InvHeld(d: Doc)
    requires Inv(d)
    ensures Held(d) && Gapless(d) && HeadOk(d.head) && d.snapshots[d.head.version.snapshotId].version == d.head.version
  {
  }

  // A publication that was prepared against the stored head --------------------------------

  ghost predicate EventsFit(d: Doc, p: Publication) {
    var m, n := d.head.version.snapshotId, d.head.version.eventSeq;
    && |p.events| >= 1 && |p.receipts| == |p.events|
    && (forall i :: 0 <= i < |p.events| ==>
          && p.events[i].seq_ == n + 1 + i && p.events[i].snapshotId == Some(m + 1)
          && p.events[i].eventId !in d.receipts)
    && (forall i, j :: 0 <= i < j < |p.events| ==> p.events[i].eventId != p.events[j].eventId)
    && (forall i :: 0 <= i < |p.events| ==>
          && p.receipts[i].eventId == p.events[i].eventId && p.receipts[i].payloadHash == PayloadHash(p.events[i])
          && SeqOf(p.receipts[i]) == n + 1 + i && p.receipts[i].version == p.version
          && p.receipts[i].target == d.head.target && p.receipts[i].placement == d.head.placement)
  }

  ghost predicate Fits(d: Doc, p: Publication)
    requires Inv(d)
  {
    var m, n, k := d.head.version.snapshotId, d.head.version.eventSeq, |p.events|;
    && EventsFit(d, p)
    && n + k + 1 <= MAX_SAFE
    && p.content == ApplyEvents(d.snapshots[m].content, p.events)
    && p.version == Version(m + 1, n + k, HashSource(p.content))
    && Fixed(p.branch) == Fixed(d.head.branch)
    && p.branch.headSnapshotId == m + 1 && p.branch.headEventSeq == n + k
    && p.snapshot.snapshotId == m + 1 && p.snapshot.parentSnapshotId == Some(m) && p.snapshot.seq_ == m + 1
    && p.snapshot.target == d.head.target && p.snapshot.checkpointed && p.snapshot.createdAt == p.branch.updatedAt
    && p.snapshot.patchStartSeq == Some(n + 1) && p.snapshot.patchEndSeq == Some(n + k)
    && p.snapshot.sourceContentHash == p.version.sourceContentHash && p.snapshot.textLength == |p.content|
    && p.snapshot.eventIds == EventIds(p.events)
    && (match p.row
        case CommitRow(id, r) => k == 1 && r == p.receipts[0] && id == CommitRowId(d.head.target, r.eventId)
        case BatchRow(id, t, pl, v, parent, ids, rs, _, total) =>
          && v == p.version && id == BatchRowId(d.head.target, m + 1) && t == d.head.target && pl == d.head.placement
          && parent == m && ids == p.snapshot.eventIds && rs == p.receipts && total == n + k + 1)
  }

  /** What no commit changes about a branch: identity, ownership, mode, status and creation. */
  ghost function Fixed(b: Branch): Branch { b.(headSnapshotId := 0, headEventSeq := 0, updatedAt := 0) }

  lemma FixedFields(a: Branch, b: Branch)
    requires Fixed(a) == Fixed(b)
    ensures a.rootDropId == b.rootDropId && a.branchId == b.branchId && a.baseDropId == b.baseDropId
    ensures a.mode == b.mode && a.status == b.status && a.createdAt == b.createdAt
    ensures a.ownerAccountId == b.ownerAccountId && a.writerAccountId == b.writerAccountId
    ensures a.writerClientId == b.writerClientId && a.snapshotHeapVersion == b.snapshotHeapVersion
    ensures a.checkpointInterval == b.checkpointInterval
  {
  }

  lemma {:induction false} WithEventsMap(events: map<int, Event>, added: seq<Event>, n: int)
    requires forall i :: 0 <= i < |added| ==> added[i].seq_ == n + 1 + i
    ensures forall i :: i in WithEvents(events, added) <==> i in events || n < i <= n + |added|
    ensures forall i :: n < i <= n + |added| ==> WithEvents(events, added)[i] == added[i - n - 1]
    ensures forall i :: i in events && i <= n ==> WithEvents(events, added)[i] == events[i]
    decreases |added|
  {
    if added != [] {
      WithEventsMap(events, added[..|added| - 1], n);
    }
  }

  lemma {:induction false} WithReceiptsMap(receipts: map<Text, Receipt>, added: seq<Receipt>)
    requires forall i, j :: 0 <= i < j < |added| ==> added[i].eventId != added[j].eventId
    ensures forall i :: 0 <= i < |added| ==>
              added[i].eventId in WithReceipts(receipts, added)
              && WithReceipts(receipts, added)[added[i].eventId] == added[i]
    ensures forall id :: id in WithReceipts(receipts, added) ==>
              id in receipts || exists i :: 0 <= i < |added| && added[i].eventId == id
    ensures forall id :: id in receipts && (forall i :: 0 <= i < |added| ==> added[i].eventId != id) ==>
              id in WithReceipts(receipts, added) && WithReceipts(receipts, added)[id] == receipts[id]
    decreases |added|
  {
    if added != [] {
      var front := added[..|added| - 1];
      WithReceiptsMap(receipts, front);
      var last := added[|added| - 1];
      assert added[|added| - 1] == last && forall i :: 0 <= i < |front| ==> added[i] == front[i];
      forall id | id in WithReceipts(receipts, added)
        ensures id in receipts || exists i :: 0 <= i < |added| && added[i].eventId == id {
        if id == last.eventId {
          assert added[|added| - 1].eventId == id;
        } else if id !in receipts {
          var i :| 0 <= i < |front| && front[i].eventId == id;
          assert added[i].eventId == id;
        }
      }
    }
  }

  lemma {:induction false} ReplayFrame(base: Text, a: map<int, Event>, b: map<int, Event>, n: nat)
    requires forall i :: 0 <= i < n ==> i in a && i in b && a[i] == b[i]
    ensures Replay(base, a, n) == Replay(base, b, n)
  {
    if n > 0 { ReplayFrame(base, a, b, n - 1); }
  }

  lemma {:induction false} ReplayMore(base: Text, events: map<int, Event>, n: nat, added: seq<Event>)
    requires forall i :: 0 <= i < n + |added| ==> i in events
    requires forall i :: n <= i < n + |added| ==> events[i] == added[i - n]
    ensures Replay(base, events, n + |added|) == ApplyEvents(Replay(base, events, n), added)
    decreases |added|
  {
    if added != [] {
      ReplayMore(base, events, n, added[..|added| - 1]);
    }
  }

  // History only grows ---------------------------------------------------------------------

  /** Everything `d` stores is stored unchanged in `r`. */
  ghost predicate Extends(d: Doc, r: Doc) {
    && Gapless(d) && Gapless(r)
    && d.head.target == r.head.target && d.head.placement == r.head.placement
    && Fixed(d.head.branch) == Fixed(r.head.branch)
    && d.head.version.snapshotId <= r.head.version.snapshotId && d.head.version.eventSeq <= r.head.version.eventSeq
    && 0 <= d.head.version.snapshotId && -1 <= d.head.version.eventSeq
    && (forall i :: i in d.events ==> r.events[i] == d.events[i])
    && (forall k :: k in d.snapshots ==> r.snapshots[k] == d.snapshots[k] && r.metadata[k] == d.metadata[k])
    && (forall id :: id in d.receipts ==> id in r.receipts && r.receipts[id] == d.receipts[id])
  }

  lemma SnapshotKept(d: Doc, r: Doc, k: int)
    requires Extends(d, r) && k in d.snapshots && SnapshotOk(d, k)
    ensures SnapshotOk(r, k)
  {
    ReplayFrame(d.snapshots[0].content, d.events, r.events, d.snapshots[k].version.eventSeq + 1);
  }

  lemma PatchKept(d: Doc, r: Doc, k: int)
    requires Extends(d, r) && 1 <= k <= d.head.version.snapshotId && PatchOk(d, k) && SnapshotOk(d, k)
             && SnapshotOk(d, k - 1)
    ensures PatchOk(r, k)
  {
  }

  lemma ReceiptKept(d: Doc, r: Doc, i: int)
    requires Extends(d, r) && i in d.events && ReceiptOk(d, i)
    ensures ReceiptOk(r, i)
  {
  }

  /** `r` is `d` with the rows of `p` added. */
  ghost predicate Adds(d: Doc, p: Publication, r: Doc) {
    var m, n := d.head.version.snapshotId, d.head.version.eventSeq;
    && Extends(d, r) && |p.receipts| == |p.events|
    && r.head.version == p.version && p.version.snapshotId == m + 1 && p.version.eventSeq == n + |p.events|
    && r.snapshots[m + 1] == Stored(p.version, p.content) && r.metadata[m + 1] == p.snapshot
    && (forall i :: n < i <= n + |p.events| ==> r.events[i] == p.events[i - n - 1])
    && (forall i :: 0 <= i < |p.receipts| ==>
          p.receipts[i].eventId in r.receipts && r.receipts[p.receipts[i].eventId] == p.receipts[i])
    && (forall id :: id in r.receipts ==>
          id in d.receipts || exists i :: 0 <= i < |p.receipts| && p.receipts[i].eventId == id)
  }

  lemma NewReceipts(d: Doc, p: Publication)
    requires EventsFit(d, p)
    ensures var r := Publish(d, p).receipts;
            && |p.receipts| == |p.events|
            && (forall id :: id in d.receipts ==> id in r && r[id] == d.receipts[id])
            && (forall i :: 0 <= i < |p.receipts| ==>
                  p.receipts[i].eventId in r && r[p.receipts[i].eventId] == p.receipts[i])
            && (forall id :: id in r ==>
                  id in d.receipts || exists i :: 0 <= i < |p.receipts| && p.receipts[i].eventId == id)
  {
    hide PayloadHash, SeqOf;
    assert forall i :: 0 <= i < |p.receipts| ==> p.receipts[i].eventId == p.events[i].eventId;
    WithReceiptsMap(d.receipts, p.receipts);
  }

  lemma NewEvents(d: Doc, p: Publication)
    requires EventsFit(d, p) && Gapless(d) && -1 <= d.head.version.eventSeq
    ensures var r, n := Publish(d, p).events, d.head.version.eventSeq;
            && (forall i :: i in r <==> 0 <= i <= n + |p.events|)
            && (forall i :: n < i <= n + |p.events| ==> r[i] == p.events[i - n - 1])
            && (forall i :: i in d.events ==> r[i] == d.events[i])
  {
    hide PayloadHash, SeqOf;
    WithEventsMap(d.events, p.events, d.head.version.eventSeq);
  }

  lemma PublishAdds(d: Doc, p: Publication)
    requires Gapless(d) && HeadOk(d.head) && EventsFit(d, p) && Fixed(p.branch) == Fixed(d.head.branch)
    requires p.version.snapshotId == p.snapshot.snapshotId == d.head.version.snapshotId + 1
    requires p.version.eventSeq == d.head.version.eventSeq + |p.events|
    ensures Adds(d, p, Publish(d, p))
  {
    hide EventsFit, HeadCoherent, WithEvents, WithReceipts;
    NewReceipts(d, p);
    NewEvents(d, p);
  }

  // What a fitting publication keeps -------------------------------------------------------

  lemma NewSnapshot(d: Doc, p: Publication, r: Doc)
    requires Adds(d, p, r) && HeadOk(d.head) && SnapshotOk(d, d.head.version.snapshotId)
    requires d.snapshots[d.head.version.snapshotId].version == d.head.version
    requires p.content == ApplyEvents(d.snapshots[d.head.version.snapshotId].content, p.events)
    requires p.version.sourceContentHash == HashSource(p.content)
    ensures SnapshotOk(r, p.version.snapshotId)
  {
    var m, n := d.head.version.snapshotId, d.head.version.eventSeq;
    hide HeadCoherent, HashSource, ApplyEvents, ApplyOps;
    SnapshotKept(d, r, m);
    ReplayMore(d.snapshots[0].content, r.events, n + 1, p.events);
  }

  lemma NewPatch(d: Doc, p: Publication, r: Doc)
    requires Adds(d, p, r) && HeadOk(d.head) && d.snapshots[d.head.version.snapshotId].version == d.head.version
    requires |p.events| >= 1 && forall i :: 0 <= i < |p.events| ==> p.events[i].snapshotId == Some(p.version.snapshotId)
    requires var m, n := d.head.version.snapshotId, d.head.version.eventSeq;
             && p.snapshot.snapshotId == m + 1 && p.snapshot.parentSnapshotId == Some(m) && p.snapshot.seq_ == m + 1
             && p.snapshot.target == d.head.target && p.snapshot.checkpointed
             && p.snapshot.patchStartSeq == Some(n + 1) && p.snapshot.patchEndSeq == Some(n + |p.events|)
             && p.snapshot.sourceContentHash == p.version.sourceContentHash && p.snapshot.textLength == |p.content|
             && p.snapshot.eventIds == EventIds(p.events)
    ensures PatchOk(r, p.version.snapshotId)
  {
    var n := d.head.version.eventSeq;
    forall i | n < i <= n + |p.events|
      ensures p.snapshot.eventIds[i - n - 1] == r.events[i].eventId
              && r.events[i].snapshotId == Some(p.version.snapshotId)
    {
      assert r.events[i] == p.events[i - n - 1];
    }
  }

  lemma PublishedSnapshots(d: Doc, p: Publication, r: Doc)
    requires SnapshotsOk(d) && Adds(d, p, r)
    requires SnapshotOk(r, p.version.snapshotId) && PatchOk(r, p.version.snapshotId) && HeadOk(r.head)
    requires p.snapshot.createdAt == r.head.branch.updatedAt
    ensures SnapshotsOk(r)
  {
    var m := d.head.version.snapshotId;
    forall k | 0 <= k <= r.head.version.snapshotId ensures SnapshotOk(r, k) {
      if k <= m { assert SnapshotOk(d, k); SnapshotKept(d, r, k); }
    }
    forall k | 1 <= k <= r.head.version.snapshotId ensures PatchOk(r, k) {
      if k <= m {
        assert PatchOk(d, k) && SnapshotOk(d, k) && SnapshotOk(d, k - 1);
        PatchKept(d, r, k);
      }
    }
  }

  lemma NewReceipt(d: Doc, p: Publication, r: Doc, i: int)
    requires Adds(d, p, r) && HeadOk(d.head) && EventsFit(d, p)
    requires d.head.version.eventSeq < i <= r.head.version.eventSeq
    ensures ReceiptOk(r, i)
  {
    hide ReceiptOk, EventsFit, Adds;
    var k := i - d.head.version.eventSeq - 1;
    AddedAt(d, p, r, k);
    ReceiptFrom(r, i, p.events[k], p.receipts[k]);
  }

  /** The k-th event of a publication and its receipt. */
  lemma AddedAt(d: Doc, p: Publication, r: Doc, k: int)
    requires Adds(d, p, r) && HeadOk(d.head) && EventsFit(d, p)
             && 0 <= k <= r.head.version.eventSeq - d.head.version.eventSeq - 1
    ensures var i := d.head.version.eventSeq + 1 + k;
            && Gapless(r) && k < |p.events| && k < |p.receipts| && 0 <= i <= r.head.version.eventSeq
            && r.events[i] == p.events[k] && p.events[k].seq_ == i == SeqOf(p.receipts[k])
            && p.events[k].snapshotId == Some(r.head.version.snapshotId) && 1 <= r.head.version.snapshotId
            && p.events[k].eventId == p.receipts[k].eventId && p.receipts[k].eventId in r.receipts
            && r.receipts[p.receipts[k].eventId] == p.receipts[k]
            && p.receipts[k].payloadHash == PayloadHash(p.events[k])
            && p.receipts[k].version == r.snapshots[r.head.version.snapshotId].version
            && p.receipts[k].target == r.head.target && p.receipts[k].placement == r.head.placement
  {
    hide PayloadHash, HeadCoherent, SeqOf;
    var i := d.head.version.eventSeq + 1 + k;
    assert r.events[i] == p.events[i - d.head.version.eventSeq - 1];
  }

  lemma ReceiptFrom(r: Doc, i: int, e: Event, q: Receipt)
    requires Gapless(r) && i in r.events && r.events[i] == e && e.seq_ == i
    requires e.snapshotId == Some(r.head.version.snapshotId) && 1 <= r.head.version.snapshotId
    requires e.eventId in r.receipts && r.receipts[e.eventId] == q && q.eventId == e.eventId
    requires SeqOf(q) == i && q.payloadHash == PayloadHash(e)
             && q.version == r.snapshots[r.head.version.snapshotId].version
    requires q.target == r.head.target && q.placement == r.head.placement
    ensures ReceiptOk(r, i)
  {
    hide PayloadHash, SeqOf;
  }

  lemma PublishedReceipts(d: Doc, p: Publication, r: Doc)
    requires Adds(d, p, r) && HeadOk(d.head) && EventsFit(d, p) && ReceiptsOk(d)
    ensures ReceiptsOk(r)
  {
    hide ReceiptOk, EventsFit, Adds, SeqOf, HeadOk;
    var n := d.head.version.eventSeq;
    AddsExtends(d, p, r);
    forall i | 0 <= i <= r.head.version.eventSeq ensures ReceiptOk(r, i) {
      if i <= n { ReceiptKept(d, r, i); } else { NewReceipt(d, p, r, i); }
    }
    forall id | id in r.receipts
      ensures 0 <= SeqOf(r.receipts[id]) <= r.head.version.eventSeq && r.events[SeqOf(r.receipts[id])].eventId == id
    {
      if id !in d.receipts { NewReceiptNames(d, p, r, id); }
    }
  }

  lemma AddsExtends(d: Doc, p: Publication, r: Doc)
    requires Adds(d, p, r)
    ensures Extends(d, r)
  {
    hide Extends;
  }

  lemma NewReceiptNames(d: Doc, p: Publication, r: Doc, id: Text)
    requires Adds(d, p, r) && HeadOk(d.head) && EventsFit(d, p) && id in r.receipts && id !in d.receipts
    ensures 0 <= SeqOf(r.receipts[id]) <= r.head.version.eventSeq && r.events[SeqOf(r.receipts[id])].eventId == id
  {
    hide EventsFit, Extends, SeqOf, HeadOk;
    var i :| 0 <= i < |p.receipts| && p.receipts[i].eventId == id;
    AddedAt(d, p, r, i);
  }

  /** The new row's id is taken by no stored row. */
  lemma PublishedRowIsNew(d: Doc, p: Publication)
    requires Inv(d) && Fits(d, p)
    ensures p.row.id !in d.outbox
  {
    hide Gapless, SnapshotsOk, ReceiptsOk, BatchRowOk, CommitRowId, BatchRowId, HashSource, ApplyEvents, PayloadHash,
         SeqOf, EventIds;
    if p.row.id in d.outbox {
      assert RowOk(d, p.row.id);
      var t, m := d.head.target, d.head.version.snapshotId;
      var old_ := d.outbox[p.row.id];
      var e := if old_.CommitRow? then old_.receipt.eventId else [];
      var f := if p.row.CommitRow? then p.row.receipt.eventId else [];
      var v := if old_.BatchRow? then old_.version.snapshotId else 0;
      RowIdsDecide(t, t, e, f, v, m + 1);
      RowIdsDecide(t, t, f, e, m + 1, v);
    }
  }

  lemma PublishedOutbox(d: Doc, p: Publication, r: Doc)
    requires OutboxOk(d) && p.row.id !in d.outbox && r.outbox == d.outbox[p.row.id := p.row]
    requires Extends(d, r) && r.head.version.snapshotId == d.head.version.snapshotId + 1 >= 1 && RowFits(r, p.row)
    ensures OutboxOk(r)
  {
    hide CommitRowId, BatchRowId, Extends, BatchRowOk;
    assert r.outbox.Keys == d.outbox.Keys + {p.row.id};
    assert |r.outbox| == |r.outbox.Keys| && |d.outbox| == |d.outbox.Keys|;
    forall id | id in r.outbox ensures RowOk(r, id) {
      if id != p.row.id { RowKept(d, r, id); }
    }
  }

  lemma RowKept(d: Doc, r: Doc, id: Text)
    requires Extends(d, r) && id in d.outbox && RowOk(d, id) && id in r.outbox && r.outbox[id] == d.outbox[id]
    ensures RowOk(r, id)
  {
    hide CommitRowId, BatchRowId;
  }

  /** The row of the newest publication in `r`. */
  ghost predicate RowFits(r: Doc, row: OutboxRow) {
    match row
    case CommitRow(id, q) => id == CommitRowId(r.head.target, q.eventId) && q.eventId in r.receipts
    && r.receipts[q.eventId] == q
    case BatchRow(id, _, _, v, _, _, _, _, _) =>
      id == BatchRowId(r.head.target, v.snapshotId) && v.snapshotId == r.head.version.snapshotId && BatchRowOk(r, row)
  }

  lemma NewRowFits(d: Doc, p: Publication)
    requires Inv(d) && Fits(d, p) && Adds(d, p, Publish(d, p))
    ensures RowFits(Publish(d, p), p.row)
  {
    hide Inv, CommitRowId, BatchRowId, PayloadHash, ApplyEvents, HashSource, SeqOf, Publish;
    var r := Publish(d, p);
    if p.row.BatchRow? {
      forall i | 0 <= i < |p.receipts| ensures p.receipts[i].eventId == p.snapshot.eventIds[i] {
        assert p.receipts[i].eventId == p.events[i].eventId;
      }
    } else {
      assert p.receipts[0].eventId in r.receipts;
    }
  }

  /** Every publication prepared against the stored head keeps the whole invariant. */
  lemma PublishKeeps(d: Doc, p: Publication)
    requires Inv(d) && Fits(d, p)
    ensures Inv(Publish(d, p))
  {
    hide Extends, PatchOk, ReceiptsOk, OutboxOk, RowFits, HashSource, ApplyEvents, PayloadHash, SeqOf, WithEvents,
         WithReceipts, EventIds, CommitRowId, BatchRowId;
    var r := Publish(d, p);
    PublishAdds(d, p);
    assert SnapshotOk(d, d.head.version.snapshotId);
    NewSnapshot(d, p, r);
    NewPatch(d, p, r);
    PublishedSnapshots(d, p, r);
    PublishedReceipts(d, p, r);
    PublishedRowIsNew(d, p);
    NewRowFits(d, p);
    PublishedOutbox(d, p, r);
  }
}
