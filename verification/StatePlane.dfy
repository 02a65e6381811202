/** One branch as its owner holds it (src/server/state-plane/memory-commits.ts and
    sqlite-commits.ts): lifecycle, documents, facts and memory, under any interleaving of writers. */
module StatePlane {
  import opened Wrappers
  import opened JsText
  import opened BranchState
  import opened BranchCommit
  import opened BranchBatch
  import opened BranchLifecycle
  import opened Timeline
  import opened Submission
  import opened FactStream
  import opened NullMem
  import opened NullMemState
  import opened RowNames

  datatype Live = Live(doc: Doc, facts: FactStore, memory: Memory)

  datatype InitRow = InitRow(intent: Text, receipt: InitReceipt)

  /** What delivery knows of a published outbox row. */
  datatype Registration = Registration(kind: Text, target: Target, generation: int)

  /** The rows of one target. */
  datatype Plane = Plane(
    target: Target, authority: Option<Authority>, init: Option<InitRow>, live: Option<Live>,
    delivery: map<Text, Registration>)

  /** What an operation answers. */
  datatype Reply =
    | Reserved(isNew: bool, authority: Authority)
    | Initialized(created: bool, initReceipt: InitReceipt)
    | Appended(accepted: bool, receipt: Receipt)
    | Batched(result: BatchResult)
    | Noted(appended: bool, factReceipt: FactReceipt)
    | Mutated(entry: Entry)

  datatype Done = Done(plane: Plane, reply: Reply)

  // Where a run starts -----------------------------------------------------------------------------

  const NO_FACTS := FactStore(map[], map[])
  const NO_MEMORY := Memory(0, [], [])

  function Start(target: Target): Plane { Plane(target, None, None, None, map[]) }

  /** A branch handed over at construction: an empty timeline without a reservation. */
  datatype Seed = Seed(branch: Branch, content: Text, placement: Placement)

  predicate SeedOk(s: Seed) {
    s.branch.headSnapshotId == 0 && s.branch.headEventSeq == -1 && s.placement.routingVersion == 1
  }

  function SeedTarget(s: Seed): Target { Target(s.branch.rootDropId, s.branch.branchId) }

  function Seeded(s: Seed): Plane {
    var head := Head(SeedTarget(s), s.placement, s.branch, Version(0, -1, HashSource(s.content)));
    var doc := Doc(head, map[0 := Stored(head.version, s.content)], map[0 := InitialSnapshot(head, s.content)], map[],
                   map[], map[]);
    Plane(SeedTarget(s), None, None, Some(Live(doc, NO_FACTS, NO_MEMORY)), map[])
  }

  /** A run starts empty or from a seed. */
  ghost predicate Initial(p: Plane) { p == Start(p.target) || exists s :: SeedOk(s) && p == Seeded(s) }

  // Operations -------------------------------------------------------------------------------------

  /** registerOutbox, then the one replacement of the state: a known id must be the same row's. */
  function Published(p: Plane, live: Live, id: Text, row: Registration, reply: Reply): Result<Done> {
    if id in p.delivery && p.delivery[id] != row then Err(StateCorrupt)
    else Ok(Done(p.(live := Some(live), delivery := p.delivery[id := row]), reply))
  }

  function ReserveAt(p: Plane, c: ReserveCommand, now: int): Result<Done> {
    if c.placement.routingVersion != 1 then Err(RoutingVersionUnsupported)
    else if p.authority.Some? then
      var a := p.authority.value;
      if a.placement.generation != c.placement.generation then Err(RoutingGenerationMismatch)
      else if !SameOwnership(a.reservation.identity, c.identity) then Err(BranchInitializationConflict)
      else Ok(Done(p, Reserved(false, a)))
    else if p.live.Some? then Err(BranchInitializationConflict)
    else if !IsSafe(now) || now < 0 then Err(InvalidCommand)
    else
      var a := Authority(c.target, c.placement, false, Reservation(c.reservationId, c.identity, c.rootRevision, now));
      Ok(Done(p.(authority := Some(a)), Reserved(true, a)))
  }

  /** Initialization up to its preparation, in the state `p` it captured. */
  function InitBegin(p: Plane, c: InitCommand): Result<PreparedInit> {
    if c.placement.routingVersion != 1 then Err(RoutingVersionUnsupported)
    else if p.authority.None? then Err(BranchNotFound)
    else if p.authority.value.placement.generation != c.placement.generation then Err(RoutingGenerationMismatch)
    else PrepareInit(p.authority.value, c)
  }

  /** Its publication in the state that is there by then. */
  function InitFinish(latest: Plane, c: InitCommand, begun: Result<PreparedInit>): Result<Done> {
    if begun.Err? then Err(begun.code)
    else if latest.authority.None? then Err(StateCorrupt)
    else if latest.authority.value.placement.generation != c.placement.generation then Err(RoutingGenerationMismatch)
    else if latest.authority.value.active then
      if latest.init.None? || latest.live.None? then Err(StateCorrupt)
      else if latest.init.value.intent != begun.value.intent then Err(BranchInitializationConflict)
      else Ok(Done(latest, Initialized(false, latest.init.value.receipt)))
    else if latest.live.Some? || latest.init.Some? then Err(StateCorrupt)
    else
      Ok(Done(latest.(authority := Some(latest.authority.value.(active := true)),
                      init := Some(InitRow(begun.value.intent, begun.value.receipt)),
                      live := Some(Live(InitialDoc(begun.value, c.content), NO_FACTS, NO_MEMORY))),
              Initialized(true, begun.value.receipt)))
  }

  function InitializeAt(captured: Plane, latest: Plane, c: InitCommand): Result<Done> {
    InitFinish(latest, c, InitBegin(captured, c))
  }

  /** The owner's lookup of the live state. */
  function StateError(p: Plane, placement: Placement): Option<Code> {
    if placement.routingVersion != 1 then Some(RoutingVersionUnsupported)
    else if p.live.None? then
      Some(if p.authority.None? then BranchNotFound
           else if p.authority.value.placement.generation != placement.generation then RoutingGenerationMismatch
           else if p.authority.value.active then StateCorrupt
           else BranchInitializationPending)
    else RouteError(placement, p.live.value.doc.head)
  }

  /** The duplicate check of append: the stored receipt, if its payload is the same. */
  function KnownReceipt(d: Doc, c: AppendRecord): Option<Result<Receipt>> {
    if c.event.eventId !in d.receipts then None
    else
      var q := d.receipts[c.event.eventId];
      Some(if q.payloadHash != c.payloadHash then Err(DiffEventIdReused) else Ok(q))
  }

  /** What append holds after its first half: the receipt of a duplicate, or prepared rows. */
  datatype BegunCommit = Repeated(receipt: Receipt) | Ready(prepared: PreparedCommit)

  function CommitBegin(p: Plane, input: AppendRecord, now: int): Result<BegunCommit> {
    var record := FromRecord(input);
    if record.Err? then Err(record.code)
    else if StateError(p, record.value.placement).Some? then Err(StateError(p, record.value.placement).value)
    else
      var c, d := record.value, p.live.value.doc;
      var duplicate := KnownReceipt(d, c);
      if duplicate.Some? then
        if duplicate.value.Err? then Err(duplicate.value.code) else Ok(Repeated(duplicate.value.value))
      else if d.head.version.snapshotId !in d.snapshots then Err(StateCorrupt)
      else
        var prepared := PrepareCommit(c, d.head, d.snapshots[d.head.version.snapshotId].content, now);
        if prepared.Err? then Err(prepared.code) else Ok(Ready(prepared.value))
  }

  /** Both rechecks in the state that is there by then, and publication. */
  function CommitFinish(latest: Plane, input: AppendRecord, begun: Result<BegunCommit>): Result<Done> {
    var record := FromRecord(input);
    if begun.Err? then Err(begun.code)
    else if begun.value.Repeated? then Ok(Done(latest, Appended(false, begun.value.receipt)))
    else if record.Err? then Err(record.code)
    else if StateError(latest, record.value.placement).Some? then Err(StateError(latest, record.value.placement).value)
    else
      var c, l, p := record.value, latest.live.value, begun.value.prepared;
      var duplicate := KnownReceipt(l.doc, c);
      if duplicate.Some? then
        if duplicate.value.Err? then Err(duplicate.value.code)
          else Ok(Done(latest, Appended(false, duplicate.value.value)))
      else if l.doc.head.version != c.expected then Err(DiffPredecessorMismatch)
      else Published(latest, l.(doc := Publish(l.doc, OfCommit(p))), p.outbox.id,
                     Registration(COMMIT_TAG, p.receipt.target, p.receipt.placement.generation),
                     Appended(true, p.receipt))
  }

  function CommitAt(captured: Plane, latest: Plane, input: AppendRecord, now: int): Result<Done> {
    CommitFinish(latest, input, CommitBegin(captured, input, now))
  }

  datatype BegunBatch = BegunBatch(version: Version, prepared: PreparedBatch)

  /** One attempt of appendBatch up to its preparation. */
  ghost function BatchBegin(p: Plane, input: BatchRecord, now: int): Result<BegunBatch> {
    var record := CaptureBatch(input);
    if record.Err? then Err(record.code)
    else if StateError(p, record.value.placement).Some? then Err(StateError(p, record.value.placement).value)
    else
      var d := p.live.value.doc;
      if d.head.version.snapshotId !in d.snapshots then Err(StateCorrupt)
      else
        var prepared := BatchAt(d, record.value, now);
        if prepared.Err? then Err(prepared.code) else Ok(BegunBatch(d.head.version, prepared.value))
  }

  /** Publish only if the head's version is still the captured one. */
  function BatchFinish(latest: Plane, input: BatchRecord, begun: Result<BegunBatch>): Result<Done> {
    if begun.Err? then Err(begun.code)
    else if StateError(latest, input.placement).Some? then Err(StateError(latest, input.placement).value)
    else
      var l, p := latest.live.value, begun.value.prepared;
      if l.doc.head.version != begun.value.version then Err(StateUnavailable)
      else if p.result.snapshot.None? || p.outbox.None? then Ok(Done(latest, Batched(p.result)))
      else Published(latest, l.(doc := Publish(l.doc, OfBatch(p))), p.outbox.value.id,
                     Registration(BATCH_TAG, input.target, input.placement.generation), Batched(p.result))
  }

  ghost function BatchAttempt(captured: Plane, latest: Plane, input: BatchRecord, now: int): Result<Done> {
    BatchFinish(latest, input, BatchBegin(captured, input, now))
  }

  function FactAt(p: Plane, input: FactCommand, now: int): Result<Done> {
    var command := CaptureFact(input);
    if command.Err? then Err(command.code)
    else if StateError(p, input.placement).Some? then Err(StateError(p, input.placement).value)
    else
      var l, c := p.live.value, command.value;
      var r := AppendFact(l.doc, l.facts, c, now);
      if r.Err? then Err(r.code)
      else if !r.value.appended then Ok(Done(p, Noted(false, r.value.receipt)))
      else Published(p, l.(facts := r.value.store), FactRowId(c.target, c.placement, r.value.receipt.identity),
                     Registration(FACT_TAG, c.target, c.placement.generation), Noted(true, r.value.receipt))
  }

  /** A prepared mutation of the memory, registered under its head. */
  function PublishedMutation(p: Plane, l: Live, memory: Memory, e: Entry): Result<Done> {
    Published(p, l.(memory := memory), e.id,
              Registration(MEMORY_KIND, e.result.head.target, e.result.head.placement.generation), Mutated(e))
  }

  ghost function PutAt(p: Plane, input: PutCommand, now: int): Result<Done> {
    var command := CapturePut(input);
    if command.Err? then Err(command.code)
    else if StateError(p, input.placement).Some? then Err(StateError(p, input.placement).value)
    else
      var l := p.live.value;
      var r := PutMemory(l.doc, l.memory, command.value, now);
      if r.Err? then Err(r.code) else PublishedMutation(p, l, r.value, r.value.log[|r.value.log| - 1])
  }

  ghost function DeleteAt(p: Plane, command: DeleteCommand, now: int): Result<Done> {
    if command.actorAccountId == [] then Err(InvalidCommand)
    else if StateError(p, command.placement).Some? then Err(StateError(p, command.placement).value)
    else
      var l := p.live.value;
      var r := DeleteMemory(l.doc, l.memory, command, now);
      if r.Err? then Err(r.code) else PublishedMutation(p, l, r.value, r.value.log[|r.value.log| - 1])
  }

  // Runs -----------------------------------------------------------------------------------------

  /** A step names the earlier moment it was prepared at, so any number of writers may be between
      capture and publication at once. */
  datatype Action =
    | Reserve(reserve: ReserveCommand, now: int)
    | Initialize(moment: nat, initialize: InitCommand)
    | Commit(moment: nat, append: AppendRecord, now: int)
    | Batch(moment: nat, batch: BatchRecord, now: int)
    | AddFact(fact: FactCommand, now: int)
    | PutMem(put: PutCommand, now: int)
    | DeleteMem(delete: DeleteCommand, now: int)

  function TargetOf(a: Action): Target {
    match a
    case Reserve(c, _) => c.target
    case Initialize(_, c) => c.target
    case Commit(_, c, _) => c.target
    case Batch(_, c, _) => c.target
    case AddFact(c, _) => c.target
    case PutMem(c, _) => c.target
    case DeleteMem(c, _) => c.target
  }

  /** What the action returns in the newest state of a history; a moment not reached yet has
      captured nothing. */
  ghost function Outcome(history: seq<Plane>, a: Action): Result<Done>
    requires history != []
  {
    var latest := history[|history| - 1];
    if TargetOf(a) != latest.target then Err(BranchNotFound)
    else match a
      case Reserve(c, now) => ReserveAt(latest, c, now)
      case Initialize(m, c) => if m < |history| then InitializeAt(history[m], latest, c) else Err(StateUnavailable)
      case Commit(m, c, now) => if m < |history| then CommitAt(history[m], latest, c, now) else Err(StateUnavailable)
      case Batch(m, c, now) => if m < |history| then BatchAttempt(history[m], latest, c, now) else Err(StateUnavailable)
      case AddFact(c, now) => FactAt(latest, c, now)
      case PutMem(c, now) => PutAt(latest, c, now)
      case DeleteMem(c, now) => DeleteAt(latest, c, now)
  }

  ghost function Next(history: seq<Plane>, a: Action): Plane
    requires history != []
  {
    if Outcome(history, a).Ok? then Outcome(history, a).value.plane else history[|history| - 1]
  }

  /** All states of a run from `start` on. */
  ghost function Run(start: Plane, actions: seq<Action>): (states: seq<Plane>)
    ensures |states| == |actions| + 1
    decreases |actions|
  {
    if actions == [] then [start]
    else
      var before := Run(start, actions[..|actions| - 1]);
      before + [Next(before, actions[|actions| - 1])]
  }

  // What every state keeps -----------------------------------------------------------------------

  ghost predicate LiveInv(l: Live, target: Target) {
    && Inv(l.doc) && l.doc.head.target == target && l.doc.head.placement.routingVersion == 1
    && FactsInv(l.doc, l.facts) && MemoryInv(l.doc, l.memory)
  }

  /** The one initialization that a branch came from. */
  ghost function Winner(p: Plane): InitCommand
    requires p.live.Some? && p.authority.Some? && 0 in p.live.value.doc.snapshots
  {
    var a := p.authority.value;
    InitCommand(p.target, a.placement, a.reservation.reservationId, a.reservation.rootRevision,
                p.live.value.doc.snapshots[0].content)
  }

  /** The branch is the one that was reserved, field by field. */
  ghost predicate BornOf(r: Reservation, b: Branch) {
    && b.baseDropId == r.identity.baseDropId && b.mode == r.identity.mode && b.status == Active
    && b.ownerAccountId == r.identity.ownerAccountId && b.writerAccountId == r.identity.writerAccountId
    && b.writerClientId == r.identity.writerClientId && b.createdAt == r.createdAt
    && b.snapshotHeapVersion == 2 && b.checkpointInterval == 24
  }

  /** The receipt of an initialization is for the stored snapshot zero, of the reserved branch. */
  ghost predicate InitOk(p: Plane)
    requires p.init.Some? && p.live.Some? && p.authority.Some?
  {
    var r, d := p.init.value.receipt, p.live.value.doc;
    && 0 in d.snapshots && r.initialHead.version == d.snapshots[0].version && r.initialHead.target == p.target
    && r.initialHead.placement == d.head.placement == p.authority.value.placement
    && BornOf(p.authority.value.reservation, d.head.branch)
    && BornOf(p.authority.value.reservation, r.initialHead.branch) && HeadCoherent(r.initialHead)
    && r.initialHead.branch.updatedAt == p.authority.value.reservation.createdAt
    && r.target == p.target && r.placement == p.authority.value.placement
    && r.reservationId == p.authority.value.reservation.reservationId
    && r.rootRevision == p.authority.value.reservation.rootRevision
    && p.init.value.intent == InitIntent(Winner(p)) && r.payloadHash == InitHash(p.init.value.intent)
  }

  /** Live branches came from a reservation that is active now, or from a seed without one. */
  ghost predicate LifecycleOk(p: Plane) {
    && (p.authority.Some? ==> p.authority.value.target == p.target && p.authority.value.placement.routingVersion == 1)
    && (p.init.Some? <==> p.authority.Some? && p.authority.value.active)
    && (p.init.Some? ==> p.live.Some? && InitOk(p)) && (p.live.Some? && p.init.None? ==> p.authority.None?)
  }

  ghost function MemoryIds(log: seq<Entry>): set<Text> { set i | 0 <= i < |log| :: log[i].id }

  /** The ids of all outbox rows of a branch. */
  ghost function AllIds(l: Live): set<Text> {
    l.doc.outbox.Keys + l.facts.outbox.Keys + MemoryIds(l.memory.log)
  }

  /** Delivery knows exactly the published rows, each under the kind its id names. */
  ghost predicate DeliveryOk(p: Plane) {
    && p.delivery.Keys == (if p.live.Some? then AllIds(p.live.value) else {})
    && forall id :: id in p.delivery ==>
         && Named(id, p.delivery[id].kind, p.target) && p.delivery[id].target == p.target
         && p.live.Some? && p.delivery[id].generation == p.live.value.doc.head.placement.generation
  }

  ghost predicate PlaneInv(p: Plane) {
    LifecycleOk(p) && DeliveryOk(p) && (p.live.Some? ==> LiveInv(p.live.value, p.target))
  }

  ghost predicate OutboxKept(d: Doc, r: Doc) {
    forall id :: id in d.outbox ==> id in r.outbox && r.outbox[id] == d.outbox[id]
  }

  /** A document is left alone or moves on to a later snapshot. */
  ghost predicate DocStep(d: Doc, r: Doc) {
    r == d || (Extends(d, r) && OutboxKept(d, r) && d.head.version.snapshotId < r.head.version.snapshotId)
  }

  ghost predicate LiveStep(l: Live, m: Live) {
    DocStep(l.doc, m.doc) && FactsExtend(l.facts, m.facts) && l.memory.log <= m.memory.log
  }

  /** Nothing recorded is lost or changed. */
  ghost predicate PlaneStep(p: Plane, q: Plane) {
    && q.target == p.target
    && (p.authority.Some? ==>
          q.authority.Some? && q.authority.value.(active := true) == p.authority.value.(active := true))
    && (p.init.Some? ==> q.init == p.init)
    && (p.live.Some? ==> q.live.Some? && LiveStep(p.live.value, q.live.value))
    && (forall id :: id in p.delivery ==> id in q.delivery && q.delivery[id] == p.delivery[id])
  }

  /** Invariant in every state, and only additions from any state to any later one. */
  ghost predicate Chain(states: seq<Plane>) {
    && states != []
    && (forall i :: 0 <= i < |states| ==> PlaneInv(states[i]))
    && (forall i, j :: 0 <= i <= j < |states| ==> PlaneStep(states[i], states[j]))
  }
}
