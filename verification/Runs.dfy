/** Safety over every run of one branch: the invariant, append-only history, and that the head
    recheck is enough. */
module Runs {
  import opened JsText
  import opened BranchState
  import opened BranchCommit
  import opened BranchBatch
  import opened BranchLifecycle
  import opened Timeline
  import opened Submission
  import opened FactStream
  import opened NullMem
  import opened NullMemState
  import opened RowNames
  import opened StatePlane

  // Steps compose --------------------------------------------------------------------------------

  lemma ExtendsTrans(a: Doc, b: Doc, c: Doc)
    requires Extends(a, b) && Extends(b, c)
    ensures Extends(a, c)
  {
    forall i | i in a.events ensures c.events[i] == a.events[i] { assert i in b.events; }
    forall k | k in a.snapshots ensures c.snapshots[k] == a.snapshots[k] && c.metadata[k] == a.metadata[k] {
      assert k in b.snapshots;
    }
  }

  lemma PlaneStepTrans(a: Plane, b: Plane, c: Plane)
    requires PlaneStep(a, b) && PlaneStep(b, c)
    ensures PlaneStep(a, c)
  {
    hide Extends;
    if a.live.Some? { LiveStepTrans(a.live.value, b.live.value, c.live.value); }
  }

  lemma LiveStepTrans(a: Live, b: Live, c: Live)
    requires LiveStep(a, b) && LiveStep(b, c)
    ensures LiveStep(a, c)
  {
    hide Extends;
    if a.doc != b.doc && b.doc != c.doc { ExtendsTrans(a.doc, b.doc, c.doc); }
  }

  lemma SameTarget(p: Plane, q: Plane)
    requires PlaneStep(p, q)
    ensures q.target == p.target
  {
    hide LiveStep;
  }

  lemma PlaneStepRefl(p: Plane)
    ensures PlaneStep(p, p)
  {
    hide Extends;
  }

  lemma ChainAppend(states: seq<Plane>, q: Plane)
    requires Chain(states) && PlaneInv(q) && PlaneStep(states[|states| - 1], q)
    ensures Chain(states + [q])
  {
    hide PlaneInv, PlaneStep;
    var next, n := states + [q], |states|;
    forall i | 0 <= i < |next| ensures PlaneInv(next[i]) {
      if i < n { assert next[i] == states[i]; }
    }
    forall i, j | 0 <= i <= j < |next| ensures PlaneStep(next[i], next[j]) {
      PlaneStepRefl(q);
      if j < n {
        assert next[i] == states[i] && next[j] == states[j];
      } else if i < n {
        assert next[i] == states[i] && PlaneStep(states[i], states[n - 1]);
        PlaneStepTrans(states[i], states[n - 1], q);
      }
    }
  }

  // The recheck ------------------------------------------------------------------------------------

  /** No ABA: a later state whose head has the same version has the same document. */
  lemma SameVersionSameDoc(p: Plane, q: Plane)
    requires PlaneStep(p, q) && p.live.Some? && q.live.Some?
    requires p.live.value.doc.head.version == q.live.value.doc.head.version
    ensures p.live.value.doc == q.live.value.doc
  {
    hide Extends;
  }

  lemma LiveParts(p: Plane)
    requires PlaneInv(p) && p.live.Some?
    ensures LiveInv(p.live.value, p.target)
  {
    hide LiveInv, LifecycleOk, DeliveryOk;
  }

  /** Registering a row whose id names its kind and target never clashes with what is known. */
  lemma Registers(p: Plane, live: Live, id: Text, row: Registration, reply: Reply)
    requires DeliveryOk(p) && p.live.Some? && Named(id, row.kind, p.target) && row.target == p.target
    requires row.generation == p.live.value.doc.head.placement.generation
    ensures Published(p, live, id, row, reply).Ok?
  {
    hide Named, AllIds;
    if id in p.delivery { NamesApart(id, p.delivery[id].kind, p.target, row.kind, p.target); }
  }

  /** What a reservation says of its branch stays true. */
  lemma StillBorn(r: Reservation, l: Live, m: Live)
    requires LiveStep(l, m)
    ensures BornOf(r, l.doc.head.branch) ==> BornOf(r, m.doc.head.branch)
  {
    hide Gapless;
    FixedFields(l.doc.head.branch, m.doc.head.branch);
  }

  /** A new state of a live branch with one row more keeps the lifecycle and the registrations. */
  lemma PublishedKeeps(p: Plane, live: Live, id: Text, row: Registration, reply: Reply)
    requires PlaneInv(p) && p.live.Some? && LiveInv(live, p.target) && LiveStep(p.live.value, live)
    requires AllIds(live) == AllIds(p.live.value) + {id} && Named(id, row.kind, p.target) && row.target == p.target
    requires row.generation == p.live.value.doc.head.placement.generation
    requires live.doc.head.placement == p.live.value.doc.head.placement && 0 in p.live.value.doc.snapshots
             && 0 in live.doc.snapshots
    requires live.doc.snapshots[0] == p.live.value.doc.snapshots[0]
    ensures Published(p, live, id, row, reply).Ok?
    ensures var q := Published(p, live, id, row, reply).value.plane; PlaneInv(q) && PlaneStep(p, q)
  {
    hide LiveInv, LiveStep, Named, AllIds, InitIntent, InitHash, BornOf, HeadCoherent;
    if p.authority.Some? { StillBorn(p.authority.value.reservation, p.live.value, live); }
    Registers(p, live, id, row, reply);
    var q := Published(p, live, id, row, reply).value.plane;
    assert q.delivery.Keys == p.delivery.Keys + {id};
    assert p.init.Some? ==> Winner(q) == Winner(p);
  }

  /** A publication that fits the live document keeps everything else too. */
  lemma PublishStep(l: Live, target: Target, pub: Publication)
    requires LiveInv(l, target) && Inv(l.doc) && Fits(l.doc, pub)
    ensures var m := l.(doc := Publish(l.doc, pub));
            && LiveInv(m, target) && LiveStep(l, m) && AllIds(m) == AllIds(l) + {pub.row.id}
            && m.doc.head.placement == l.doc.head.placement && 0 in l.doc.snapshots && 0 in m.doc.snapshots
            && m.doc.snapshots[0] == l.doc.snapshots[0]
  {
    hide Inv, Fits, FactsInv, MemoryInv, Extends, Publish;
    var r := Publish(l.doc, pub);
    PublishKeeps(l.doc, pub);
    PublishExtends(l.doc, pub);
    FactsSurviveCommits(l.doc, r, l.facts);
    MemorySurvivesCommits(l.doc, r, l.memory);
    ZeroHeld(l.doc);
    ZeroKept(l.doc, r);
    PublishedIds(l.doc, pub);
  }

  lemma PublishedIds(d: Doc, p: Publication)
    ensures Publish(d, p).outbox.Keys == d.outbox.Keys + {p.row.id}
  {
    hide WithEvents, WithReceipts;
  }

  lemma ZeroHeld(d: Doc)
    requires Inv(d)
    ensures 0 in d.snapshots
  {
    hide ReceiptsOk, OutboxOk;
  }

  lemma ZeroKept(d: Doc, r: Doc)
    requires Extends(d, r) && 0 in d.snapshots
    ensures 0 in r.snapshots && r.snapshots[0] == d.snapshots[0] && r.head.target == d.head.target
            && r.head.placement == d.head.placement
  {
  }

  lemma PublishExtends(d: Doc, p: Publication)
    requires Inv(d) && Fits(d, p)
    ensures Extends(d, Publish(d, p)) && OutboxKept(d, Publish(d, p))
    ensures Publish(d, p).head.version.snapshotId == d.head.version.snapshotId + 1
  {
    PublishAdds(d, p);
    PublishedRowIsNew(d, p);
  }

  // Each action ------------------------------------------------------------------------------------

  lemma CommitKeeps(captured: Plane, latest: Plane, input: AppendRecord, now: int)
    requires PlaneInv(captured) && PlaneInv(latest) && PlaneStep(captured, latest) && input.target == latest.target
    ensures CommitAt(captured, latest, input, now).Ok? ==>
              var r := CommitAt(captured, latest, input, now).value.plane; PlaneInv(r) && PlaneStep(latest, r)
    ensures CommitPublishes(captured, latest, input, now) ==> CommitAt(captured, latest, input, now).Ok?
  {
    hide PlaneInv, PlaneStep, PrepareCommit, Publish, FromRecord, OfCommit, RouteError, Inv, LiveInv, LiveStep,
         AllIds, Published, Fits;
    PlaneStepRefl(latest);
    if CommitPublishes(captured, latest, input, now) {
      var c, l := FromRecord(input).value, latest.live.value;
      ExpectedIsHead(c, captured.live.value.doc, now);
      SameVersionSameDoc(captured, latest);
      LiveParts(latest);
      LiveDoc(latest);
      CommitFits(l.doc, c, now);
      var p := CommitBegin(captured, input, now).value.prepared;
      CommitRowNamed(c, l.doc, now);
      PublishStep(l, latest.target, OfCommit(p));
      PublishedKeeps(latest, l.(doc := Publish(l.doc, OfCommit(p))), p.outbox.id,
                     Registration(COMMIT_TAG, p.receipt.target, p.receipt.placement.generation),
                     Appended(true, p.receipt));
    }
  }

  /** All checks of append passed; what is left is to register the row and publish. */
  ghost predicate CommitPublishes(captured: Plane, latest: Plane, input: AppendRecord, now: int) {
    var record, begun := FromRecord(input), CommitBegin(captured, input, now);
    && begun.Ok? && begun.value.Ready? && record.Ok? && StateError(latest, record.value.placement).None?
    && KnownReceipt(latest.live.value.doc, record.value).None?
    && latest.live.value.doc.head.version == record.value.expected
  }

  lemma LiveDoc(p: Plane)
    requires PlaneInv(p) && p.live.Some?
    ensures Inv(p.live.value.doc)
  {
    hide Inv, FactsInv, MemoryInv, LifecycleOk, DeliveryOk;
  }

  lemma CommitRowNamed(c: AppendRecord, d: Doc, now: int)
    requires d.head.version.snapshotId in d.snapshots && PrepareCommit(c, d.head, HeadContent(d), now).Ok?
    ensures var p := PrepareCommit(c, d.head, HeadContent(d), now).value;
            && Named(p.outbox.id, COMMIT_TAG, d.head.target) && OfCommit(p).row.id == p.outbox.id
            && p.receipt.target == d.head.target && p.receipt.placement.generation == d.head.placement.generation
  {
    hide Named, HashSource, ApplyOps, CommitRowId, HeadCoherent;
    CommitNamed(c.target, c.event.eventId);
  }

  lemma ExpectedIsHead(c: AppendRecord, d: Doc, now: int)
    requires d.head.version.snapshotId in d.snapshots
    requires PrepareCommit(c, d.head, d.snapshots[d.head.version.snapshotId].content, now).Ok?
    ensures c.expected == d.head.version
  {
  }

  /** The version recheck passed and there is something to publish. */
  ghost predicate BatchPublishes(captured: Plane, latest: Plane, input: BatchRecord, now: int) {
    var begun := BatchBegin(captured, input, now);
    && begun.Ok? && StateError(latest, input.placement).None?
    && latest.live.value.doc.head.version == begun.value.version
    && begun.value.prepared.result.snapshot.Some? && begun.value.prepared.outbox.Some?
  }

  lemma BatchKeeps(captured: Plane, latest: Plane, input: BatchRecord, now: int)
    requires PlaneInv(captured) && PlaneInv(latest) && PlaneStep(captured, latest) && input.target == latest.target
    ensures BatchAttempt(captured, latest, input, now).Ok? ==>
              var r := BatchAttempt(captured, latest, input, now).value.plane; PlaneInv(r) && PlaneStep(latest, r)
    ensures BatchPublishes(captured, latest, input, now) ==> BatchAttempt(captured, latest, input, now).Ok?
  {
    hide PlaneInv, PlaneStep, BatchAt, Publish, OfBatch, RouteError, Inv, LiveInv, LiveStep, AllIds, Published, Fits;
    PlaneStepRefl(latest);
    if BatchPublishes(captured, latest, input, now) {
      var c, l := CaptureBatch(input).value, latest.live.value;
      SameVersionSameDoc(captured, latest);
      LiveParts(latest);
      LiveDoc(latest);
      BatchFits(l.doc, c, now);
      var p := BatchAt(l.doc, c, now).value;
      BatchRowNamed(c, l.doc, now);
      Routed(latest, input.placement);
      LiveTarget(latest);
      PublishStep(l, latest.target, OfBatch(p));
      PublishedKeeps(latest, l.(doc := Publish(l.doc, OfBatch(p))), p.outbox.value.id,
                     Registration(BATCH_TAG, input.target, input.placement.generation), Batched(p.result));
    }
  }

  lemma LiveTarget(p: Plane)
    requires PlaneInv(p) && p.live.Some?
    ensures p.live.value.doc.head.target == p.target && p.live.value.doc.head.placement.routingVersion == 1
  {
    hide Inv, FactsInv, MemoryInv, LifecycleOk, DeliveryOk;
  }

  lemma Routed(p: Plane, placement: Placement)
    requires StateError(p, placement).None?
    ensures p.live.Some? && RouteError(placement, p.live.value.doc.head).None?
    ensures placement.generation == p.live.value.doc.head.placement.generation && placement.routingVersion == 1
  {
  }

  lemma SameRoute(p: Plane, q: Plane, placement: Placement)
    requires p.live.Some? && q.live.Some? && p.live.value.doc.head.placement == q.live.value.doc.head.placement
    ensures StateError(p, placement) == StateError(q, placement)
  {
  }

  lemma BatchRowNamed(c: BatchRecord, d: Doc, now: int)
    requires Held(d) && BatchAt(d, c, now).Ok? && BatchAt(d, c, now).value.result.snapshot.Some?
             && BatchAt(d, c, now).value.outbox.Some?
    ensures var p := BatchAt(d, c, now).value;
            Named(p.outbox.value.id, BATCH_TAG, d.head.target) && OfBatch(p).row.id == p.outbox.value.id
  {
    hide Named, HashSource, ApplyEvents, BatchRowId, HeadCoherent, Fresh, Firsts, Acks, Reused, PredecessorsMatch,
         Placed, ReceiptsFor, EventIds;
    BatchNamed(c.target, d.head.version.snapshotId + 1);
  }

  lemma ReserveKeeps(p: Plane, c: ReserveCommand, now: int)
    requires PlaneInv(p) && c.target == p.target && ReserveAt(p, c, now).Ok?
    ensures var r := ReserveAt(p, c, now).value.plane; PlaneInv(r) && PlaneStep(p, r)
  {
    hide LiveInv, InitOk, SameOwnership, LiveStep, AllIds, Named;
    PlaneStepRefl(p);
  }

  /** Reservations do not change, so what was prepared from an earlier authority is still right. */
  lemma InitializeKeeps(captured: Plane, latest: Plane, c: InitCommand)
    requires PlaneInv(captured) && PlaneInv(latest) && PlaneStep(captured, latest) && c.target == latest.target
    requires InitializeAt(captured, latest, c).Ok?
    ensures var r := InitializeAt(captured, latest, c).value.plane; PlaneInv(r) && PlaneStep(latest, r)
  {
    hide LiveInv, Inv, LiveStep, InitIntent, InitHash, Named;
    PlaneStepRefl(latest);
    var r := InitializeAt(captured, latest, c).value.plane;
    if r != latest {
      InitialDocOk(captured.authority.value, c);
      EmptyLive(r.live.value, c.target);
      assert r.delivery.Keys == AllIds(r.live.value);
    }
  }

  lemma EmptyLive(l: Live, target: Target)
    requires Inv(l.doc) && l.doc.head.target == target && l.doc.head.placement.routingVersion == 1
    requires l.facts == NO_FACTS && l.memory == NO_MEMORY
    ensures LiveInv(l, target) && (l.doc.outbox == map[] ==> AllIds(l) == {})
  {
    hide Inv;
    NothingReplayed();
  }

  lemma NothingReplayed()
    ensures Replayed(map[], []) == map[] && Table([]) == map[]
  {
  }

  ghost predicate FactPublishes(p: Plane, input: FactCommand, now: int) {
    && CaptureFact(input).Ok? && StateError(p, input.placement).None?
    && AppendFact(p.live.value.doc, p.live.value.facts, CaptureFact(input).value, now).Ok?
  }

  lemma FactKeeps(p: Plane, input: FactCommand, now: int)
    requires PlaneInv(p) && input.target == p.target
    ensures FactAt(p, input, now).Ok? ==> var r := FactAt(p, input, now).value.plane; PlaneInv(r) && PlaneStep(p, r)
    ensures FactPublishes(p, input, now) ==> FactAt(p, input, now).Ok?
  {
    hide PlaneInv, PlaneStep, Inv, FactsInv, MemoryInv, AppendFact, CaptureFact, Captured, RouteError, Published,
         AllIds, Named, FactRowId, LiveInv, LiveStep, StateError;
    PlaneStepRefl(p);
    if CaptureFact(input).Ok? && StateError(p, input.placement).None? {
      var c := CaptureFact(input).value;
      Routed(p, input.placement);
      var l := p.live.value;
      if AppendFact(l.doc, l.facts, c, now).Ok? && AppendFact(l.doc, l.facts, c, now).value.appended {
        CaptureCaptures(input);
        LiveParts(p);
        LiveTarget(p);
        FactStep(l, p.target, c, now);
        var r := AppendFact(l.doc, l.facts, c, now).value;
        FactNamed(c.target, c.placement, r.receipt.identity);
        LiveDoc(p);
        ZeroHeld(l.doc);
        PublishedKeeps(p, l.(facts := r.store), FactRowId(c.target, c.placement, r.receipt.identity),
                       Registration(FACT_TAG, c.target, c.placement.generation), Noted(true, r.receipt));
      }
    }
  }

  lemma FactStep(l: Live, target: Target, c: FactCommand, now: int)
    requires LiveInv(l, target) && Captured(c) && c.target == target && AppendFact(l.doc, l.facts, c, now).Ok?
    requires AppendFact(l.doc, l.facts, c, now).value.appended
    ensures var r := AppendFact(l.doc, l.facts, c, now).value; var m := l.(facts := r.store);
            && LiveInv(m, target) && LiveStep(l, m)
            && AllIds(m) == AllIds(l) + {FactRowId(c.target, c.placement, r.receipt.identity)}
  {
    hide Inv, FactsInv, MemoryInv, Captured, AppendFact, FactRowId, Extends;
    AppendKeepsFacts(l.doc, l.facts, c, now);
    FactIds(l.doc, l.facts, c, now);
  }

  lemma FactIds(d: Doc, store: FactStore, c: FactCommand, now: int)
    requires AppendFact(d, store, c, now).Ok? && AppendFact(d, store, c, now).value.appended
    ensures var r := AppendFact(d, store, c, now).value;
            r.store.outbox.Keys == store.outbox.Keys + {FactRowId(c.target, c.placement, r.receipt.identity)}
  {
    hide FactRowId, NameTaken, Authorized, PrepareFact, ContentError, RouteError;
  }

  /** A mutation adds one entry at the end of the log, prepared at the live head. */
  ghost predicate Mutates(l: Live, m: Memory) {
    && |m.log| == |l.memory.log| + 1 && m.log[..|l.memory.log|] == l.memory.log
    && var e := m.log[|l.memory.log|];
       && e.result.head == l.doc.head
       && e.id == MemoryRowId(l.doc.head.target, l.doc.head.placement, e.result.memoryRevision)
  }

  lemma MutationKeeps(p: Plane, m: Memory)
    requires PlaneInv(p) && p.live.Some? && Mutates(p.live.value, m) && MemoryInv(p.live.value.doc, m)
    ensures var r := PublishedMutation(p, p.live.value, m, m.log[|m.log| - 1]);
            r.Ok? && PlaneInv(r.value.plane) && PlaneStep(p, r.value.plane)
  {
    hide PlaneInv, PlaneStep, Inv, FactsInv, MemoryInv, Published, Named, AllIds, MemoryRowId, Extends;
    var l, e := p.live.value, m.log[|m.log| - 1];
    LiveParts(p);
    LiveDoc(p);
    ZeroHeld(l.doc);
    MemoryNamed(l.doc.head.target, l.doc.head.placement, e.result.memoryRevision);
    MutationIds(l, m);
    PublishedKeeps(p, l.(memory := m), e.id,
                   Registration(MEMORY_KIND, e.result.head.target, e.result.head.placement.generation), Mutated(e));
  }

  lemma MutationIds(l: Live, m: Memory)
    requires Mutates(l, m)
    ensures AllIds(l.(memory := m)) == AllIds(l) + {m.log[|m.log| - 1].id}
  {
    hide MemoryRowId;
    var a, b := l.memory.log, m.log;
    assert forall i :: 0 <= i < |a| ==> b[..|a|][i] == b[i];
    forall id | id in MemoryIds(b) ensures id in MemoryIds(a) + {b[|a|].id} {
      var i :| 0 <= i < |b| && b[i].id == id;
      if i < |a| { assert a[i].id == id; }
    }
    forall id | id in MemoryIds(a) ensures id in MemoryIds(b) {
      var i :| 0 <= i < |a| && a[i].id == id;
      assert b[i].id == id;
    }
  }

  ghost predicate PutPublishes(p: Plane, input: PutCommand, now: int) {
    && CapturePut(input).Ok? && StateError(p, input.placement).None?
    && PutMemory(p.live.value.doc, p.live.value.memory, CapturePut(input).value, now).Ok?
  }

  ghost predicate DeletePublishes(p: Plane, c: DeleteCommand, now: int) {
    && c.actorAccountId != [] && StateError(p, c.placement).None?
    && DeleteMemory(p.live.value.doc, p.live.value.memory, c, now).Ok?
  }

  lemma PutKeeps(p: Plane, input: PutCommand, now: int)
    requires PlaneInv(p) && input.target == p.target
    ensures PutAt(p, input, now).Ok? ==> var r := PutAt(p, input, now).value.plane; PlaneInv(r) && PlaneStep(p, r)
    ensures PutPublishes(p, input, now) ==> PutAt(p, input, now).Ok?
  {
    hide PlaneInv, PlaneStep, Inv, MemoryInv, PutMemory, ValidRecord, StateError, Published, PublishedMutation,
         Mutates, LiveInv;
    if CapturePut(input).Ok? && StateError(p, input.placement).None? {
      Routed(p, input.placement);
      var l, c := p.live.value, CapturePut(input).value;
      if PutMemory(l.doc, l.memory, c, now).Ok? {
        LiveTarget(p);
        LiveMemory(p);
        LiveDoc(p);
        PutKeepsMemory(l.doc, l.memory, c, now);
        PutMutates(l, c, now);
        MutationKeeps(p, PutMemory(l.doc, l.memory, c, now).value);
      }
    }
  }

  lemma LiveMemory(p: Plane)
    requires PlaneInv(p) && p.live.Some?
    ensures MemoryInv(p.live.value.doc, p.live.value.memory)
  {
    hide Inv, FactsInv, MemoryInv, LifecycleOk, DeliveryOk;
  }

  lemma LiveFacts(p: Plane)
    requires PlaneInv(p) && p.live.Some?
    ensures FactsInv(p.live.value.doc, p.live.value.facts)
  {
    hide Inv, FactsInv, MemoryInv, LifecycleOk, DeliveryOk;
  }

  lemma PutMutates(l: Live, c: PutCommand, now: int)
    requires PutMemory(l.doc, l.memory, c, now).Ok? && c.target == l.doc.head.target
    requires c.placement.generation == l.doc.head.placement.generation
             && c.placement.routingVersion == l.doc.head.placement.routingVersion
    ensures Mutates(l, PutMemory(l.doc, l.memory, c, now).value)
  {
    hide AccessError, Authorized, SetRecord, Stamped, IntentOf, MemoryRowId;
    assert c.placement == l.doc.head.placement;
  }

  lemma DeleteKeeps(p: Plane, c: DeleteCommand, now: int)
    requires PlaneInv(p) && c.target == p.target
    ensures DeleteAt(p, c, now).Ok? ==> var r := DeleteAt(p, c, now).value.plane; PlaneInv(r) && PlaneStep(p, r)
    ensures DeletePublishes(p, c, now) ==> DeleteAt(p, c, now).Ok?
  {
    hide PlaneInv, PlaneStep, Inv, MemoryInv, DeleteMemory, StateError, Published, PublishedMutation, Mutates, LiveInv;
    if c.actorAccountId != [] && StateError(p, c.placement).None? {
      Routed(p, c.placement);
      var l := p.live.value;
      if DeleteMemory(l.doc, l.memory, c, now).Ok? {
        LiveTarget(p);
        LiveMemory(p);
        LiveDoc(p);
        DeleteKeepsMemory(l.doc, l.memory, c, now);
        DeleteMutates(l, c, now);
        MutationKeeps(p, DeleteMemory(l.doc, l.memory, c, now).value);
      }
    }
  }

  lemma DeleteMutates(l: Live, c: DeleteCommand, now: int)
    requires DeleteMemory(l.doc, l.memory, c, now).Ok? && c.target == l.doc.head.target
    requires c.placement.generation == l.doc.head.placement.generation
             && c.placement.routingVersion == l.doc.head.placement.routingVersion
    ensures Mutates(l, DeleteMemory(l.doc, l.memory, c, now).value)
  {
    hide AccessError, Authorized, RemoveRecords, IntentOf, MemoryRowId;
    assert c.placement == l.doc.head.placement;
  }

  // Every run --------------------------------------------------------------------------------------

  lemma NextKeeps(history: seq<Plane>, a: Action)
    requires Chain(history)
    ensures Chain(history + [Next(history, a)])
  {
    hide PlaneInv, PlaneStep, ReserveAt, InitializeAt, CommitAt, BatchAttempt, FactAt, PutAt, DeleteAt;
    var latest := history[|history| - 1];
    PlaneStepRefl(latest);
    if Outcome(history, a).Ok? {
      match a
      case Reserve(c, now) => ReserveKeeps(latest, c, now);
      case Initialize(m, c) => InitializeKeeps(history[m], latest, c);
      case Commit(m, c, now) => CommitKeeps(history[m], latest, c, now);
      case Batch(m, c, now) => BatchKeeps(history[m], latest, c, now);
      case AddFact(c, now) => FactKeeps(latest, c, now);
      case PutMem(c, now) => PutKeeps(latest, c, now);
      case DeleteMem(c, now) => DeleteKeeps(latest, c, now);
    }
    ChainAppend(history, Next(history, a));
  }

  /** In every state of every run, with any number of writers between capture and publication,
      the joint invariant holds and everything recorded earlier is still there unchanged. */
  lemma {:induction false} RunSafe(start: Plane, actions: seq<Action>)
    requires Initial(start)
    ensures Chain(Run(start, actions))
    decreases |actions|
  {
    hide PlaneInv, PlaneStep, Next, Initial;
    if actions == [] {
      InitialOk(start);
      PlaneStepRefl(start);
    } else {
      RunSafe(start, actions[..|actions| - 1]);
      NextKeeps(Run(start, actions[..|actions| - 1]), actions[|actions| - 1]);
    }
  }

  lemma InitialOk(p: Plane)
    requires Initial(p)
    ensures PlaneInv(p)
  {
    hide LiveInv, Named;
    if p != Start(p.target) {
      var s :| SeedOk(s) && p == Seeded(s);
      SeedDocOk(s);
      EmptyLive(p.live.value, p.target);
    }
  }

  /** A seeded branch starts with a document that keeps the timeline invariant. */
  lemma SeedDocOk(s: Seed)
    requires SeedOk(s)
    ensures var d := Seeded(s).live.value.doc;
            Inv(d) && d.head.target == Seeded(s).target && d.head.placement.routingVersion == 1 && d.outbox == map[]
  {
    var d := Seeded(s).live.value.doc;
    assert Gapless(d);
    assert SnapshotOk(d, 0);
  }

  lemma {:induction false} RunStarts(start: Plane, actions: seq<Action>)
    ensures Run(start, actions)[0] == start
    decreases |actions|
  {
    hide Next;
    if actions != [] { RunStarts(start, actions[..|actions| - 1]); }
  }

  /** State i + 1 of a run is the step of action i from the history before it. */
  lemma {:induction false} RunNext(start: Plane, actions: seq<Action>, i: nat)
    requires i < |actions|
    ensures var before := Run(start, actions[..i]);
            before[i] == Run(start, actions)[i] && Run(start, actions)[i + 1] == Next(before, actions[i])
    decreases |actions|
  {
    hide Next;
    var front := actions[..|actions| - 1];
    if i < |front| {
      RunNext(start, front, i);
      assert front[..i] == actions[..i];
    } else {
      assert actions[..i] == front;
    }
  }
}
