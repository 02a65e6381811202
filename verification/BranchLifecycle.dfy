/** Reservation and initialization of a branch (shared/drop/branch-lifecycle.ts): the base case of
    every run. */
module BranchLifecycle {
  import opened Wrappers
  import opened JsText
  import opened Json
  import opened JsonCanonical
  import opened JsonEdit
  import opened BranchState
  import opened EventIdentity
  import opened Timeline

  datatype Ownership = Ownership(
    baseDropId: Text, mode: BranchMode, ownerAccountId: Option<Text>, writerAccountId: Option<Text>,
      writerClientId: Option<Text>)

  datatype Reservation = Reservation(reservationId: Text, identity: Ownership, rootRevision: Text, createdAt: int)

  datatype Authority = Authority(target: Target, placement: Placement, active: bool, reservation: Reservation)

  datatype ReserveCommand = ReserveCommand(
    target: Target, placement: Placement, reservationId: Text, identity: Ownership, rootRevision: Text)

  datatype InitCommand = InitCommand(
    target: Target, placement: Placement, reservationId: Text, rootRevision: Text, content: Text)

  datatype InitReceipt = InitReceipt(
    target: Target, placement: Placement, reservationId: Text, rootRevision: Text, payloadHash: Digest,
      initialHead: Head)

  datatype PreparedInit = PreparedInit(head: Head, snapshot: Snapshot, receipt: InitReceipt, intent: Text)

  /** sameBranchInitializationIdentity: an account's incidental client does not matter. */
  predicate SameOwnership(a: Ownership, b: Ownership) {
    && a.baseDropId == b.baseDropId && a.mode == b.mode && a.ownerAccountId == b.ownerAccountId
    && a.writerAccountId == b.writerAccountId && (a.writerAccountId.Some? || a.writerClientId == b.writerClientId)
  }

  /** What a branch assignment depends on. */
  function Principals(a: Ownership): Ownership {
    if a.writerAccountId.Some? then a.(writerClientId := None) else a
  }

  /** Ownerships are the same exactly when their principals are, so sameness is an equivalence. */
  lemma OwnershipByPrincipals(a: Ownership, b: Ownership)
    ensures SameOwnership(a, b) <==> Principals(a) == Principals(b)
  {
    assert a.writerAccountId == b.writerAccountId && a.writerAccountId.Some? ==>
        (Principals(a) == Principals(b) <==>
           a.baseDropId == b.baseDropId && a.mode == b.mode && a.ownerAccountId == b.ownerAccountId);
  }

  // Initialization intent ------------------------------------------------------------------------

  const TARGET := U("target")
  const PLACEMENT := U("placement")
  const ROUTING := U("routingVersion")
  const GENERATION := U("generation")
  const RESERVATION := U("reservationId")
  const REVISION := U("rootRevision")
  const CONTENT := U("content")

  function TargetJson(t: Target): Json { JObj(MCons(ROOT, JStr(t.rootDropId), MCons(BRANCH, JStr(t.branchId), MNil))) }

  function PlacementJson(p: Placement): Json {
    JObj(MCons(ROUTING, IntJson(p.routingVersion), MCons(GENERATION, IntJson(p.generation), MNil)))
  }

  function InitJson(c: InitCommand): Json {
    JObj(MCons(TARGET, TargetJson(c.target), MCons(PLACEMENT, PlacementJson(c.placement),
         MCons(RESERVATION, JStr(c.reservationId),
               MCons(REVISION, JStr(c.rootRevision), MCons(CONTENT, JStr(c.content), MNil))))))
  }

  function InitIntent(c: InitCommand): Text { Canonical(InitJson(c)) }

  function InitHash(intent: Text): Digest { DomainHash("nulldown.branch-initialization.v1", intent) }

  lemma InitKeys()
    ensures ROOT != BRANCH && ROUTING != GENERATION
    ensures TARGET != PLACEMENT && TARGET != RESERVATION && TARGET != REVISION && TARGET != CONTENT
    ensures PLACEMENT != RESERVATION && PLACEMENT != REVISION && PLACEMENT != CONTENT
    ensures RESERVATION != REVISION && RESERVATION != CONTENT && REVISION != CONTENT
  {
    assert |ROOT| == 10 && |BRANCH| == 8 && |ROUTING| == 14 && |GENERATION| == 10;
    assert |TARGET| == 6 && |PLACEMENT| == 9 && |RESERVATION| == 13 && |REVISION| == 12 && |CONTENT| == 7;
  }

  /** An object of two properties is read off by its keys. */
  lemma TwoFields(k: Text, l: Text, v: Json, w: Json, x: Json, y: Json)
    requires k != l && Wf(v) && Wf(w) && Wf(x) && Wf(y)
    ensures var a, b := MCons(k, v, MCons(l, w, MNil)), MCons(k, x, MCons(l, y, MNil));
            && Wf(JObj(a)) && Wf(JObj(b)) && (Same(JObj(a), JObj(b)) <==> Same(v, x) && Same(w, y))
  {
    hide Same, Wf, WfMembers, ToMap;
    EmptyObject();
    FrontMember(l, w, MNil);
    FrontMember(l, y, MNil);
    FrontMember(k, v, MCons(l, w, MNil));
    FrontMember(k, x, MCons(l, y, MNil));
    var a, b := MCons(k, v, MCons(l, w, MNil)), MCons(k, x, MCons(l, y, MNil));
    SameByKeys(a, b);
    assert ToMap(a) == map[l := w, k := v] && ToMap(b) == map[l := y, k := x];
    assert k in ToMap(a) && l in ToMap(a);
  }

  lemma PartsDecide(t: Target, u: Target, p: Placement, q: Placement)
    ensures Wf(TargetJson(t)) && Wf(PlacementJson(p))
    ensures Same(TargetJson(t), TargetJson(u)) <==> t == u
    ensures Same(PlacementJson(p), PlacementJson(q)) <==> p == q
  {
    hide U, Same, Wf, IntJson;
    InitKeys();
    ScalarsDecide(t.rootDropId, u.rootDropId, p.routingVersion, q.routingVersion);
    ScalarsDecide(t.branchId, u.branchId, p.generation, q.generation);
    ScalarsDecide(u.rootDropId, t.rootDropId, q.routingVersion, p.routingVersion);
    ScalarsDecide(u.branchId, t.branchId, q.generation, p.generation);
    TwoFields(ROOT, BRANCH, JStr(t.rootDropId), JStr(t.branchId), JStr(u.rootDropId), JStr(u.branchId));
    TwoFields(ROUTING, GENERATION, IntJson(p.routingVersion), IntJson(p.generation), IntJson(q.routingVersion),
              IntJson(q.generation));
  }

  lemma InitMap(c: InitCommand)
    ensures Wf(InitJson(c)) && WfMembers(InitJson(c).members)
    ensures ToMap(InitJson(c).members) ==
              map[TARGET := TargetJson(c.target), PLACEMENT := PlacementJson(c.placement),
                  RESERVATION := JStr(c.reservationId),
                  REVISION := JStr(c.rootRevision), CONTENT := JStr(c.content)]
  {
    hide U, Same, Wf, WfMembers, ToMap, IntJson, TargetJson, PlacementJson;
    InitKeys();
    EmptyObject();
    PartsDecide(c.target, c.target, c.placement, c.placement);
    ScalarsDecide(c.content, c.reservationId, 0, 0);
    ScalarsDecide(c.rootRevision, c.reservationId, 0, 0);
    ScalarsDecide(c.reservationId, c.reservationId, 0, 0);
    FrontMember(CONTENT, JStr(c.content), MNil);
    var m5 := MCons(CONTENT, JStr(c.content), MNil);
    FrontMember(REVISION, JStr(c.rootRevision), m5);
    var m4 := MCons(REVISION, JStr(c.rootRevision), m5);
    FrontMember(RESERVATION, JStr(c.reservationId), m4);
    var m3 := MCons(RESERVATION, JStr(c.reservationId), m4);
    FrontMember(PLACEMENT, PlacementJson(c.placement), m3);
    FrontMember(TARGET, TargetJson(c.target), MCons(PLACEMENT, PlacementJson(c.placement), m3));
  }

  /** Intents are equal exactly when the commands are, lone surrogates included; their hashes too. */
  lemma InitIntentDecides(a: InitCommand, b: InitCommand)
    ensures InitIntent(a) == InitIntent(b) <==> a == b
    ensures InitHash(InitIntent(a)) == InitHash(InitIntent(b)) <==> a == b
  {
    hide U, Same, Wf, WfMembers, ToMap, IntJson, TargetJson, PlacementJson, Norm, InitHash;
    InitKeys();
    InitMap(a);
    InitMap(b);
    CanonicalDecides(InitJson(a), InitJson(b));
    SameByKeys(InitJson(a).members, InitJson(b).members);
    PartsDecide(a.target, b.target, a.placement, b.placement);
    ScalarsDecide(a.reservationId, b.reservationId, 0, 0);
    ScalarsDecide(a.rootRevision, b.rootRevision, 0, 0);
    ScalarsDecide(a.content, b.content, 0, 0);
    var m := ToMap(InitJson(a).members);
    assert TARGET in m && PLACEMENT in m && RESERVATION in m && REVISION in m && CONTENT in m;
    WriteWellFormed(Norm(InitJson(a)));
    WriteWellFormed(Norm(InitJson(b)));
    InitHashDecides(InitIntent(a), InitIntent(b));
  }

  lemma InitHashDecides(a: Text, b: Text)
    requires WellFormed(a) && WellFormed(b)
    ensures InitHash(a) == InitHash(b) <==> a == b
  {
    AsciiWellFormed(U("nulldown.branch-initialization.v1"));
    DomainHashDecides("nulldown.branch-initialization.v1", a, b);
  }

  // Preparing snapshot zero ------------------------------------------------------------------------

  /** initialBranchSnapshot */
  function InitialSnapshot(head: Head, content: Text): Snapshot {
    Snapshot(head.target, 0, None, 0, [], true, None, None, |content|, head.version.sourceContentHash,
             head.branch.createdAt)
  }

  function InitialHead(authority: Authority, c: InitCommand): Head {
    var r := authority.reservation;
    Head(c.target, c.placement,
         Branch(c.target.rootDropId, c.target.branchId, r.identity.baseDropId, r.identity.mode, Active,
                r.identity.ownerAccountId,
                r.identity.writerAccountId, r.identity.writerClientId, 0, -1, 2, 24, r.createdAt, r.createdAt),
         Version(0, -1, HashSource(c.content)))
  }

  function InitError(authority: Authority, c: InitCommand): Option<Code> {
    if authority.placement.routingVersion != 1 then Some(InvalidCommand)
    else if authority.target != c.target then Some(BranchInitializationConflict)
    else if authority.placement.routingVersion != c.placement.routingVersion then Some(RoutingVersionUnsupported)
    else if authority.placement.generation != c.placement.generation then Some(RoutingGenerationMismatch)
    else if authority.reservation.reservationId != c.reservationId
            || authority.reservation.rootRevision != c.rootRevision then
      Some(BranchInitializationConflict)
    else None
  }

  /** prepareBranchInitialization */
  function PrepareInit(authority: Authority, c: InitCommand): (r: Result<PreparedInit>)
    ensures r.Ok? <==> InitError(authority, c).None?
  {
    var error, head, intent := InitError(authority, c), InitialHead(authority, c), InitIntent(c);
    if error.Some? then Err(error.value)
    else Ok(PreparedInit(head, InitialSnapshot(head, c.content),
                         InitReceipt(c.target, c.placement, c.reservationId, c.rootRevision, InitHash(intent),
                                     head), intent))
  }

  /** The document an initialization publishes. */
  function InitialDoc(p: PreparedInit, content: Text): Doc {
    Doc(p.head, map[0 := Stored(p.head.version, content)], map[0 := p.snapshot], map[], map[], map[])
  }

  /** Every prepared initialization starts a document that keeps the timeline's invariant. */
  lemma InitialDocOk(authority: Authority, c: InitCommand)
    requires PrepareInit(authority, c).Ok?
    ensures var d := InitialDoc(PrepareInit(authority, c).value, c.content);
            Inv(d) && d.head.target == c.target && d.head.placement == c.placement
            && d.head.placement.routingVersion == 1
  {
    hide U, InitIntent, InitHash;
    var d := InitialDoc(PrepareInit(authority, c).value, c.content);
    assert Gapless(d);
    assert SnapshotOk(d, 0);
  }
}
