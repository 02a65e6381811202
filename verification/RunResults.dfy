/** What the run invariant means to callers: fold and partition of the history, the recheck,
    the lifecycle, and that no corruption is ever reported. */
module RunResults {
  import opened Wrappers
  import opened JsText
  import opened BranchState
  import opened BranchCommit
  import opened BranchBatch
  import opened BranchLifecycle
  import opened Timeline
  import opened Submission
  import opened RuntimeFacts
  import opened FactStream
  import opened NullMem
  import opened NullMemState
  import opened StatePlane
  import opened Runs

  // History ----------------------------------------------------------------------------------------

  ghost function LastSeq(d: Doc, k: int): int
    requires k in d.snapshots
  {
    d.snapshots[k].version.eventSeq
  }

  lemma {:induction false} SeqsIncrease(d: Doc, a: int, b: int)
    requires SnapshotsOk(d) && 0 <= a < b <= d.head.version.snapshotId
    ensures LastSeq(d, a) < LastSeq(d, b)
    decreases b - a
  {
    assert PatchOk(d, b);
    if a < b - 1 { SeqsIncrease(d, a, b - 1); }
  }

  ghost predicate InPatch(d: Doc, k: int, i: int)
    requires k in d.metadata
  {
    var m := d.metadata[k];
    m.patchStartSeq.Some? && m.patchEndSeq.Some? && m.patchStartSeq.value <= i <= m.patchEndSeq.value
  }

  ghost predicate Patched(d: Doc, k: int, i: int) {
    1 <= k <= d.head.version.snapshotId && k in d.metadata && InPatch(d, k, i)
  }

  /** The patch ranges of snapshots 1 to head partition the events 0 to head, and each event is
      marked with the one snapshot that holds it. */
  lemma PatchesPartition(d: Doc, i: int)
    requires SnapshotsOk(d) && 0 <= i <= d.head.version.eventSeq
    ensures exists k :: Patched(d, k, i) && d.events[i].snapshotId == Some(k)
    ensures forall j, k :: Patched(d, j, i) && Patched(d, k, i) ==> j == k
  {
    var k := PatchOf(d, i, d.head.version.snapshotId);
    assert PatchOk(d, k);
    forall j, k | Patched(d, j, i) && Patched(d, k, i) ensures j == k {
      PatchBounds(d, j, i);
      PatchBounds(d, k, i);
      if j < k - 1 { SeqsIncrease(d, j, k - 1); }
      if k < j - 1 { SeqsIncrease(d, k, j - 1); }
    }
  }

  lemma PatchBounds(d: Doc, k: int, i: int)
    requires SnapshotsOk(d) && 1 <= k <= d.head.version.snapshotId
    ensures InPatch(d, k, i) <==> LastSeq(d, k - 1) < i <= LastSeq(d, k)
  {
    assert PatchOk(d, k);
  }

  lemma {:induction false} PatchOf(d: Doc, i: int, n: int) returns (k: int)
    requires SnapshotsOk(d) && 0 <= n <= d.head.version.snapshotId && 0 <= i <= LastSeq(d, n)
    ensures 1 <= k <= n && InPatch(d, k, i)
    decreases n
  {
    if LastSeq(d, n - 1) < i {
      PatchBounds(d, n, i);
      k := n;
    } else {
      k := PatchOf(d, i, n - 1);
    }
  }

  // The recheck --------------------------------------------------------------------------------------

  /** Two moments of a run with the same head version have the same document; so a ticket from the
      first that passes the recheck at the second publishes what a fresh preparation would. */
  lemma RecheckIsEnough(start: Plane, actions: seq<Action>, i: nat, j: nat)
    requires Initial(start) && i <= j <= |actions|
    ensures var p, q := Run(start, actions)[i], Run(start, actions)[j];
            p.live.Some? && q.live.Some? && p.live.value.doc.head.version == q.live.value.doc.head.version ==>
              && p.live.value.doc == q.live.value.doc
              && (forall c, now :: CommitAt(p, q, c, now) == CommitAt(q, q, c, now))
              && (forall c, now :: BatchAttempt(p, q, c, now) == BatchAttempt(q, q, c, now))
  {
    hide PlaneInv, PlaneStep, Run, PrepareCommit, FromRecord, Publish, OfCommit, BatchAt, CaptureBatch, OfBatch;
    RunSafe(start, actions);
    var p, q := Run(start, actions)[i], Run(start, actions)[j];
    assert PlaneStep(p, q);
    if p.live.Some? && q.live.Some? && p.live.value.doc.head.version == q.live.value.doc.head.version {
      SameVersionSameDoc(p, q);
    }
  }

  /** And one that does not pass it publishes nothing. */
  lemma StaleTicketRefused(p: Plane, q: Plane, append: AppendRecord, batch: BatchRecord, now: int)
    requires p.live.Some? && q.live.Some? && p.live.value.doc.head.version != q.live.value.doc.head.version
    ensures CommitAt(p, q, append, now).Ok? ==> CommitAt(p, q, append, now).value.plane == q
    ensures BatchAttempt(p, q, batch, now).Ok? ==> BatchAttempt(p, q, batch, now).value.plane == q
  {
    hide CommitAt, BatchAttempt;
    StaleCommitRefused(p, q, append, now);
    StaleBatchRefused(p, q, batch, now);
  }

  lemma StaleCommitRefused(p: Plane, q: Plane, c: AppendRecord, now: int)
    requires p.live.Some? && q.live.Some? && p.live.value.doc.head.version != q.live.value.doc.head.version
    ensures CommitAt(p, q, c, now).Ok? ==> CommitAt(p, q, c, now).value.plane == q
  {
    hide PrepareCommit, FromRecord, StateError, KnownReceipt, Published;
    var begun := CommitBegin(p, c, now);
    if begun.Ok? && begun.value.Ready? { ExpectedIsHead(FromRecord(c).value, p.live.value.doc, now); }
  }

  lemma StaleBatchRefused(p: Plane, q: Plane, c: BatchRecord, now: int)
    requires p.live.Some? && q.live.Some? && p.live.value.doc.head.version != q.live.value.doc.head.version
    ensures BatchAttempt(p, q, c, now).Err?
  {
    hide BatchAt, CaptureBatch, StateError, Published;
  }

  // Lifecycle ----------------------------------------------------------------------------------------

  /** An initialized branch acknowledges its own initialization again, with the original receipt,
      and refuses any other. */
  lemma InitializeRetry(captured: Plane, latest: Plane, c: InitCommand)
    requires PlaneInv(captured) && PlaneInv(latest) && PlaneStep(captured, latest) && latest.init.Some?
             && c.target == latest.target
    ensures latest.live.Some? && latest.authority.Some? && 0 in latest.live.value.doc.snapshots
    ensures InitializeAt(captured, latest, c).Ok? <==> captured.authority.Some? && c == Winner(latest)
    ensures InitializeAt(captured, latest, c).Ok? ==>
              InitializeAt(captured, latest, c).value == Done(latest, Initialized(false, latest.init.value.receipt))
  {
    hide LiveInv, LiveStep, InitIntent, InitHash, InitialHead, DeliveryOk;
    InitIntentDecides(c, Winner(latest));
  }

  /** One reservation wins; the same principals are told of it again, all others are refused. */
  lemma ReserveAnswers(p: Plane, c: ReserveCommand, now: int)
    requires PlaneInv(p) && c.target == p.target && c.placement.routingVersion == 1
    ensures var r := ReserveAt(p, c, now);
            && (p.authority.None? && p.live.None? ==> (r.Ok? <==> 0 <= now <= MAX_SAFE))
            && (p.authority.None? && r.Ok? ==>
                  r.value.reply == Reserved(true, r.value.plane.authority.value))
            && (p.authority.Some? ==>
                  var a := p.authority.value;
                  && (r.Ok? <==>
                        c.placement == a.placement && Principals(c.identity) == Principals(a.reservation.identity))
                  && (r.Ok? ==> r.value == Done(p, Reserved(false, a))))
  {
    hide LiveInv, InitOk, DeliveryOk;
    if p.authority.Some? { OwnershipByPrincipals(p.authority.value.reservation.identity, c.identity); }
  }

  /** What a lookup says of a branch in any reachable state: found, not there, not yet there, or
      asked for at the wrong place. */
  lemma LookupAnswers(p: Plane, placement: Placement)
    requires PlaneInv(p)
    ensures var r := StateError(p, placement); var v1 := placement.routingVersion == 1;
            && (r.None? <==> p.live.Some? && placement == p.live.value.doc.head.placement)
            && (r == Some(BranchNotFound) <==> v1 && p.live.None? && p.authority.None?)
            && (r == Some(BranchInitializationPending) <==>
                  v1 && p.live.None? && p.authority.Some? && placement == p.authority.value.placement)
            && (r == Some(RoutingVersionUnsupported) <==> !v1)
            && (r == Some(RoutingGenerationMismatch) <==>
                  && v1 && (p.live.Some? || p.authority.Some?)
                  && placement != (if p.live.Some? then p.live.value.doc.head.placement
                                   else p.authority.value.placement))
            && r != Some(StateCorrupt)
  {
    hide Inv, FactsInv, MemoryInv, DeliveryOk, InitOk;
  }

  /** A seeded branch is never reserved or initialized. */
  lemma SeedRefuses(p: Plane, q: Plane, r: ReserveCommand, c: InitCommand, now: int)
    requires PlaneInv(p) && p.live.Some? && p.init.None?
    ensures ReserveAt(p, r, now).Err? && InitializeAt(p, q, c).Err?
  {
    hide LiveInv, DeliveryOk;
  }

  /** In every reachable state the memory passes its integrity check, so a correctly routed memory
      operation is never refused as corrupt. */
  lemma MemoryNeverCorrupt(p: Plane, placement: Placement)
    requires PlaneInv(p) && p.live.Some? && RouteError(placement, p.live.value.doc.head).None?
    ensures StateValid(p.live.value.doc.head, p.live.value.memory, EMPTY)
    ensures AccessError(p.live.value.doc, p.live.value.memory, placement).None?
  {
    hide Inv, FactsInv, LifecycleOk, DeliveryOk, StateValid, HeadOk, Gapless, LogOk, ValidRecord, Table, Replayed,
         RecordStamped, RouteError, DistinctRecords, AllValid;
    var l := p.live.value;
    InvHeld(l.doc);
    CheckerAccepts(l.doc, l.memory);
  }

  // Corruption is never reported ---------------------------------------------------------------------

  predicate IsCorruption(c: Code) { c == StateCorrupt || c == SnapshotNotFound || c == SnapshotVersionMismatch }

  ghost predicate Sound<T>(r: Result<T>) { r.Err? ==> !IsCorruption(r.code) }

  lemma StateErrorSound(p: Plane, placement: Placement)
    requires PlaneInv(p)
    ensures StateError(p, placement).Some? ==> !IsCorruption(StateError(p, placement).value)
  {
    hide LiveInv, InitOk, DeliveryOk;
  }

  lemma HeadReads(p: Plane)
    requires PlaneInv(p) && p.live.Some?
    ensures var d := p.live.value.doc;
            Inv(d) && Held(d) && HeadOk(d.head) && d.head.target == p.target && ContentError(d, d.head.version).None?
  {
    hide Inv, FactsInv, MemoryInv, LifecycleOk, DeliveryOk, HeadOk, Gapless;
    InvHeld(p.live.value.doc);
  }

  lemma CommitSound(p: Plane, q: Plane, c: AppendRecord, now: int)
    requires PlaneInv(p) && PlaneInv(q) && PlaneStep(p, q) && c.target == q.target
    ensures Sound(CommitAt(p, q, c, now))
  {
    hide PlaneInv, PlaneStep, Inv, HeadOk, PrepareCommit, StateError, Publish, OfCommit, ContentError, Published;
    SameTarget(p, q);
    CommitKeeps(p, q, c, now);
    if FromRecord(c).Ok? {
      var r := FromRecord(c).value;
      StateErrorSound(p, r.placement);
      StateErrorSound(q, r.placement);
      if StateError(p, r.placement).None? {
        Routed(p, r.placement);
        HeadReads(p);
        var d := p.live.value.doc;
        ReachableCommitErrors(d, r, now);
        CommitCodes(r, d.head, HeadContent(d), now);
      }
    }
  }

  lemma CommitCodes(c: AppendRecord, head: Head, content: Text, now: int)
    ensures var r := PrepareCommit(c, head, content, now);
            r.Err? ==> r.code != SnapshotNotFound && r.code != SnapshotVersionMismatch
  {
    hide HeadCoherent, HashSource, ApplyOps;
  }

  lemma BatchCodes(c: BatchRecord, ids: seq<Identity>, head: Head, content: Text, existing: map<Text, Receipt>,
                   now: int)
    ensures var r := PrepareBatch(c, ids, head, content, existing, now);
            r.Err? ==> r.code != SnapshotNotFound && r.code != SnapshotVersionMismatch
  {
    hide HeadCoherent, HashSource, Rows, Acks, Fresh, Firsts, Reused, PredecessorsMatch;
  }

  lemma BatchSound(p: Plane, q: Plane, c: BatchRecord, now: int)
    requires PlaneInv(p) && PlaneInv(q) && PlaneStep(p, q) && c.target == q.target
    ensures Sound(BatchAttempt(p, q, c, now))
  {
    hide PlaneInv, PlaneStep, Inv, HeadOk, PrepareBatch, StateError, Publish, OfBatch, ContentError, Published;
    SameTarget(p, q);
    BatchKeeps(p, q, c, now);
    StateErrorSound(q, c.placement);
    if CaptureBatch(c).Ok? {
      var r := CaptureBatch(c).value;
      StateErrorSound(p, r.placement);
      if StateError(p, r.placement).None? {
        Routed(p, r.placement);
        HeadReads(p);
        var d := p.live.value.doc;
        ReachableHeadErrors(d, r, now);
        BatchCodes(r, HashEvents(r.events), d.head, HeadContent(d), d.receipts, now);
      }
    }
  }

  lemma InitializeSound(p: Plane, q: Plane, c: InitCommand)
    requires PlaneInv(p) && PlaneInv(q) && PlaneStep(p, q)
    ensures Sound(InitializeAt(p, q, c))
  {
    hide LiveInv, InitOk, LiveStep, InitIntent, InitHash, InitialHead, DeliveryOk;
  }

  lemma FactSound(p: Plane, c: FactCommand, now: int)
    requires PlaneInv(p) && c.target == p.target
    ensures Sound(FactAt(p, c, now))
  {
    hide PlaneInv, PlaneStep, Inv, HeadOk, StateError, ContentError, AppendFact, CaptureFact, Published;
    FactKeeps(p, c, now);
    StateErrorSound(p, c.placement);
    CaptureCodes(c);
    if StateError(p, c.placement).None? && CaptureFact(c).Ok? {
      Routed(p, c.placement);
      HeadReads(p);
      AppendCodes(p.live.value.doc, p.live.value.facts, CaptureFact(c).value, now);
    }
  }

  lemma CaptureCodes(c: FactCommand)
    ensures CaptureFact(c).Err? ==> CaptureFact(c).code == InvalidCommand
  {
    hide IsFact, Source, WithActor;
  }

  lemma AppendCodes(d: Doc, store: FactStore, c: FactCommand, now: int)
    requires ContentError(d, d.head.version).None?
    ensures Sound(AppendFact(d, store, c, now))
  {
    hide ContentError, Intent, IntentHash, FactIdentity, FactRowId, NameTaken, Authorized, PrepareFact;
    FactCodes(c, d.head, |store.rows| - 1, IntentHash(Intent(c.fact)), now);
  }

  lemma FactCodes(c: FactCommand, head: Head, headSeq: int, hash: Digest, now: int)
    ensures Sound(PrepareFact(c, head, headSeq, hash, now))
  {
    hide TextAt, Source, DigestText, FactIdentity, FactKey, FactId, Assigned;
  }

  lemma PutSound(p: Plane, c: PutCommand, now: int)
    requires PlaneInv(p) && c.target == p.target
    ensures Sound(PutAt(p, c, now))
  {
    hide PlaneInv, PlaneStep, StateError, AccessError, Authorized, ValidRecord, Stamped, IntentOf, MemoryRowId,
         SetRecord, StateValid, PublishedMutation;
    PutKeeps(p, c, now);
    StateErrorSound(p, c.placement);
    if StateError(p, c.placement).None? {
      Routed(p, c.placement);
      MemoryNeverCorrupt(p, c.placement);
    }
  }

  lemma DeleteSound(p: Plane, c: DeleteCommand, now: int)
    requires PlaneInv(p) && c.target == p.target
    ensures Sound(DeleteAt(p, c, now))
  {
    hide PlaneInv, PlaneStep, StateError, AccessError, Authorized, IntentOf, MemoryRowId, RemoveRecords, StateValid,
         PublishedMutation;
    DeleteKeeps(p, c, now);
    StateErrorSound(p, c.placement);
    if StateError(p, c.placement).None? {
      Routed(p, c.placement);
      MemoryNeverCorrupt(p, c.placement);
    }
  }

  /** No operation of any run ever reports corruption: every head, content, receipt, memory and
      outbox check that stands for a broken store holds in every reachable state. */
  lemma NeverCorrupt(start: Plane, actions: seq<Action>, a: Action)
    requires Initial(start)
    ensures Sound(Outcome(Run(start, actions), a))
  {
    hide PlaneInv, PlaneStep, Run, CommitAt, BatchAttempt, InitializeAt, FactAt, PutAt, DeleteAt, Sound, Initial;
    RunSafe(start, actions);
    var history := Run(start, actions);
    var latest := history[|history| - 1];
    OwnErrorsSound();
    if TargetOf(a) == latest.target {
      match a
      case Reserve(c, now) => ReserveSound(latest, c, now);
      case Initialize(m, c) => if m < |history| { InitializeSound(history[m], latest, c); }
      case Commit(m, c, now) => if m < |history| { CommitSound(history[m], latest, c, now); }
      case Batch(m, c, now) => if m < |history| { BatchSound(history[m], latest, c, now); }
      case AddFact(c, now) => FactSound(latest, c, now);
      case PutMem(c, now) => PutSound(latest, c, now);
      case DeleteMem(c, now) => DeleteSound(latest, c, now);
    }
  }

  lemma OwnErrorsSound()
    ensures Sound<Done>(Err(BranchNotFound)) && Sound<Done>(Err(StateUnavailable))
  {
  }

  lemma ReserveSound(p: Plane, c: ReserveCommand, now: int)
    ensures Sound(ReserveAt(p, c, now))
  {
    hide SameOwnership;
  }

  ghost predicate InRange(n: int) { 0 <= n <= MAX_SAFE }

  /** Every id, sequence and total of the document: snapshots, receipts and batch rows. */
  ghost predicate DocBounds(d: Doc) {
    var m, n := d.head.version.snapshotId, d.head.version.eventSeq;
    && d.head.branch.rootDropId == d.head.target.rootDropId && d.head.branch.branchId == d.head.target.branchId
    && d.head.branch.headSnapshotId == m && d.head.branch.headEventSeq == n
    && (m == 0 <==> n == -1) && 0 <= m <= n + 1 <= MAX_SAFE
    && (forall i :: i in d.events ==> InRange(i) && d.events[i].seq_ == i)
    && (forall k :: k in d.snapshots ==>
          InRange(k) && d.snapshots[k].version.snapshotId == k && -1 <= d.snapshots[k].version.eventSeq <= n)
    && (forall id :: id in d.receipts ==>
          && InRange(SeqOf(d.receipts[id])) && SeqOf(d.receipts[id]) <= d.receipts[id].version.eventSeq <= n
          && 1 <= d.receipts[id].version.snapshotId <= m)
    && (forall id :: id in d.outbox && d.outbox[id].BatchRow? ==>
          InRange(d.outbox[id].totalStored) && d.outbox[id].totalStored <= n + 1
          && InRange(d.outbox[id].parentSnapshotId))
  }

  lemma DocInBounds(d: Doc)
    requires Inv(d)
    ensures DocBounds(d)
  {
    hide Inv, Gapless, SeqOf;
    InvHeld(d);
    KeysInBounds(d);
    forall id | id in d.receipts
      ensures var q := d.receipts[id];
              && 0 <= SeqOf(q) <= q.version.eventSeq <= d.head.version.eventSeq
              && 1 <= q.version.snapshotId <= d.head.version.snapshotId
    {
      ReceiptInBounds(d, id);
    }
    forall id | id in d.outbox && d.outbox[id].BatchRow?
      ensures 0 <= d.outbox[id].totalStored <= d.head.version.eventSeq + 1 && InRange(d.outbox[id].parentSnapshotId)
    {
      RowInBounds(d, id);
    }
  }

  lemma KeysInBounds(d: Doc)
    requires Inv(d)
    ensures forall i :: i in d.events ==> InRange(i) && d.events[i].seq_ == i
    ensures forall k :: k in d.snapshots ==>
              && InRange(k) && d.snapshots[k].version.snapshotId == k
              && -1 <= d.snapshots[k].version.eventSeq <= d.head.version.eventSeq
  {
    hide OutboxOk, PatchOk, PayloadHash, HashSource, Replay, ZeroOk;
    forall i | i in d.events ensures d.events[i].seq_ == i { assert ReceiptOk(d, i); }
    forall k | k in d.snapshots
      ensures d.snapshots[k].version.snapshotId == k && -1 <= d.snapshots[k].version.eventSeq <= d.head.version.eventSeq
    {
      assert SnapshotOk(d, k);
    }
  }

  lemma RowInBounds(d: Doc, id: Text)
    requires Inv(d) && id in d.outbox && d.outbox[id].BatchRow?
    ensures 0 <= d.outbox[id].totalStored <= d.head.version.eventSeq + 1 && InRange(d.outbox[id].parentSnapshotId)
  {
    hide ReceiptsOk, PatchOk, HashSource, Replay, CommitRowId, BatchRowId, ZeroOk;
    assert RowOk(d, id);
    assert SnapshotOk(d, d.outbox[id].version.snapshotId);
  }

  lemma ReceiptInBounds(d: Doc, id: Text)
    requires Inv(d) && id in d.receipts
    ensures var q := d.receipts[id];
            && 0 <= SeqOf(q) <= q.version.eventSeq <= d.head.version.eventSeq
            && 1 <= q.version.snapshotId <= d.head.version.snapshotId
  {
    hide OutboxOk, PayloadHash, HashSource, Replay, ZeroOk;
    var i := SeqOf(d.receipts[id]);
    assert ReceiptOk(d, i);
    var k := d.events[i].snapshotId.value;
    assert SnapshotOk(d, k);
    EventInPatch(d, i, k);
  }

  /** The event marked with snapshot k lies in its patch. */
  lemma EventInPatch(d: Doc, i: int, k: int)
    requires SnapshotsOk(d) && 0 <= i <= d.head.version.eventSeq && d.events[i].snapshotId == Some(k)
    ensures 1 <= k <= d.head.version.snapshotId && i <= LastSeq(d, k)
  {
    hide SnapshotOk;
    PatchesPartition(d, i);
    var j :| Patched(d, j, i) && d.events[i].snapshotId == Some(j);
    PatchBounds(d, j, i);
  }

  /** Every number a run stores is a safe integer, and the head's are coherent. */
  lemma RunBounds(start: Plane, actions: seq<Action>, i: nat)
    requires Initial(start) && i <= |actions| && Run(start, actions)[i].live.Some?
    ensures var l := Run(start, actions)[i].live.value;
            && DocBounds(l.doc)
            && (forall id :: id in l.facts.rows ==> InRange(l.facts.rows[id].receipt.event.seq_))
            && InRange(l.memory.revision)
            && (forall k :: 0 <= k < |l.memory.log| ==>
                  l.memory.log[k].result.memoryRevision == k + 1 <= l.memory.revision)
  {
    hide Run, PlaneStep, DocBounds, Inv, LogStored, AllValid, DistinctRecords, RecordStamped, Table, Replayed, Apart,
         HasSeq, FactsOutboxOk, LifecycleOk, DeliveryOk, IsFact, FactIdentity, FactId, FactKey, Intent, IntentHash,
         SourceOk, Initial, ValidRecord, MemoryRowId, IntentOf, StampedAt;
    RunSafe(start, actions);
    var p := Run(start, actions)[i];
    assert PlaneInv(p);
    var l := p.live.value;
    DocInBounds(l.doc);
    forall id | id in l.facts.rows
      ensures InRange(l.facts.rows[id].receipt.event.seq_) { assert FactRowOk(l.doc, l.facts, id); }
    forall k | 0 <= k < |l.memory.log| ensures l.memory.log[k].result.memoryRevision == k + 1 {
      assert EntryOk(l.doc.head, l.memory.log[k], 0 + k + 1);
    }
  }

  /** The branch belongs to whom the command reserved it for, since the moment it did. */
  ghost predicate ReservedFor(c: ReserveCommand, now: int, b: Branch) {
    && b.rootDropId == c.target.rootDropId && b.branchId == c.target.branchId
    && b.baseDropId == c.identity.baseDropId && b.mode == c.identity.mode
    && b.ownerAccountId == c.identity.ownerAccountId && b.writerAccountId == c.identity.writerAccountId
    && b.writerClientId == c.identity.writerClientId && b.createdAt == now && b.status == Active
  }

  /** The first reservation decides for good: whatever happens after it, the branch is not live or
      it is the one that was reserved. */
  lemma ReservationDecides(start: Plane, actions: seq<Action>, i: nat, j: nat, c: ReserveCommand, now: int)
    requires Initial(start) && i < j <= |actions| && actions[i] == Reserve(c, now) && c.target == start.target
    requires var p := Run(start, actions)[i]; p.authority.None? && ReserveAt(p, c, now).Ok?
    ensures var q := Run(start, actions)[j];
            && q.authority.Some? && q.authority.value.reservation == Reservation(c.reservationId, c.identity,
                                                                                 c.rootRevision, now)
            && q.authority.value.placement == c.placement
            && (q.live.Some? ==> q.init.Some? && ReservedFor(c, now, q.live.value.doc.head.branch))
  {
    hide PlaneInv, PlaneStep, Run, Initial, ReserveAt;
    RunSafe(start, actions);
    RunStarts(start, actions);
    RunNext(start, actions, i);
    var p, m, q := Run(start, actions)[i], Run(start, actions)[i + 1], Run(start, actions)[j];
    assert PlaneStep(Run(start, actions)[0], p) && PlaneStep(m, q) && PlaneStep(p, m) && PlaneInv(q);
    SameTarget(start, p);
    SameTarget(p, m);
    SameTarget(m, q);
    ReserveStep(start, actions, i, c, now);
    KeptReservation(m, q, c, now);
  }

  lemma ReserveStep(start: Plane, actions: seq<Action>, i: nat, c: ReserveCommand, now: int)
    requires i < |actions| && actions[i] == Reserve(c, now)
    requires var p := Run(start, actions)[i]; c.target == p.target && p.authority.None? && ReserveAt(p, c, now).Ok?
    requires var before := Run(start, actions[..i]);
             before[i] == Run(start, actions)[i] && Run(start, actions)[i + 1] == Next(before, actions[i])
    ensures Run(start, actions)[i + 1].authority ==
              Some(Authority(c.target, c.placement, false,
                             Reservation(c.reservationId, c.identity, c.rootRevision, now)))
  {
    hide Run;
  }

  lemma KeptReservation(m: Plane, q: Plane, c: ReserveCommand, now: int)
    requires PlaneStep(m, q) && PlaneInv(q) && q.target == c.target
    requires m.authority == Some(Authority(c.target, c.placement, false,
                                           Reservation(c.reservationId, c.identity, c.rootRevision, now)))
    ensures q.authority.Some? && q.authority.value.placement == c.placement
    ensures q.authority.value.reservation == Reservation(c.reservationId, c.identity, c.rootRevision, now)
    ensures q.live.Some? ==> q.init.Some? && ReservedFor(c, now, q.live.value.doc.head.branch)
  {
    hide LiveStep, Inv, FactsInv, MemoryInv, DeliveryOk, InitIntent, InitHash, Gapless;
    var a := Authority(c.target, c.placement, false, Reservation(c.reservationId, c.identity, c.rootRevision, now));
    assert q.authority.value.reservation == q.authority.value.(active := true).reservation
           == a.(active := true).reservation;
    assert q.authority.value.placement == q.authority.value.(active := true).placement;
    if q.live.Some? { InvHeld(q.live.value.doc); }
  }

  /** Any reserved branch can be brought to life with any content: the results above are about
      something. */
  lemma LiveReachable(c: ReserveCommand, content: Text, now: int)
    requires c.placement.routingVersion == 1 && 0 <= now <= MAX_SAFE
    ensures var init := InitCommand(c.target, c.placement, c.reservationId, c.rootRevision, content);
            var p := Run(Start(c.target), [Reserve(c, now), Initialize(1, init)])[2];
            && p.live.Some? && PlaneInv(p) && Held(p.live.value.doc) && HeadContent(p.live.value.doc) == content
            && ReservedFor(c, now, p.live.value.doc.head.branch)
  {
    hide PlaneInv, InitIntent, InitHash;
    var init := InitCommand(c.target, c.placement, c.reservationId, c.rootRevision, content);
    var a, b := Reserve(c, now), Initialize(1, init);
    assert [a, b][..1] == [a] && [a][..0] == [];
    var first := Start(c.target);
    assert Run(Start(c.target), []) == [first];
    var second := ReserveAt(first, c, now).value.plane;
    assert Next([first], a) == second;
    assert Run(Start(c.target), [a]) == [first, second];
    assert Run(Start(c.target), [a, b]) == [first, second] + [Next([first, second], b)];
    RunSafe(Start(c.target), [a, b]);
  }
}
