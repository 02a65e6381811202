/** The state plane as an object (MemoryBranchCommitStatePlane of
    src/server/state-plane/memory-commits.ts): maps that methods replace, and prepared tickets of
    writers that have not published yet. */
module BranchOwner {
  import opened Wrappers
  import opened BranchState
  import opened BranchCommit
  import opened BranchBatch
  import opened BranchLifecycle
  import opened Timeline
  import opened Selection
  import opened FactStream
  import opened NullMem
  import opened NullMemCheck
  import opened NullMemState
  import opened NullMemQuery
  import opened RowNames
  import opened StatePlane
  import opened Runs
  import opened RunResults
  import JsText

  type Deliveries = map<JsText.Text, Registration>

  /** The maps at one moment. */
  datatype Maps = Maps(
    states: map<Target, Live>, authorities: map<Target, Authority>, initializations: map<Target, InitRow>,
      delivery: Deliveries)

  function At<T>(m: map<Target, T>, t: Target): Option<T> { if t in m then Some(m[t]) else None }

  function WithEntry<T>(m: map<Target, T>, t: Target, v: Option<T>): map<Target, T> {
    if v.Some? then m[t := v.value] else m - {t}
  }

  lemma EntrySet<T>(m: map<Target, T>, t: Target, v: Option<T>)
    ensures forall u :: At(WithEntry(m, t, v), u) == if u == t then v else At(m, u)
  {
  }

  /** The registrations of one branch. */
  function DeliveryOf(m: Deliveries, t: Target): Deliveries { map id | id in m && m[id].target == t :: m[id] }

  function WithDelivery(m: Deliveries, t: Target, d: Deliveries): Deliveries {
    (map id | id in m && m[id].target != t :: m[id]) + d
  }

  lemma DeliverySet(m: Deliveries, t: Target, d: Deliveries)
    requires forall id :: id in d ==> d[id].target == t && (id in m ==> m[id].target == t)
    ensures forall u :: DeliveryOf(WithDelivery(m, t, d), u) == if u == t then d else DeliveryOf(m, u)
  {
    forall u ensures DeliveryOf(WithDelivery(m, t, d), u) == if u == t then d else DeliveryOf(m, u) {
      if u == t {
        assert DeliveryOf(WithDelivery(m, t, d), u) == d;
      } else {
        assert DeliveryOf(WithDelivery(m, t, d), u) == DeliveryOf(m, u);
      }
    }
  }

  function ViewOf(m: Maps, t: Target): Plane {
    Plane(t, At(m.authorities, t), At(m.initializations, t), At(m.states, t), DeliveryOf(m.delivery, t))
  }

  /** The rows of one branch put in place. */
  function With(m: Maps, p: Plane): Maps {
    Maps(WithEntry(m.states, p.target, p.live), WithEntry(m.authorities, p.target, p.authority),
         WithEntry(m.initializations, p.target, p.init), WithDelivery(m.delivery, p.target, p.delivery))
  }

  lemma WithView(m: Maps, p: Plane)
    requires forall id :: id in p.delivery ==>
               p.delivery[id].target == p.target && (id in m.delivery ==> m.delivery[id].target == p.target)
    ensures forall t :: ViewOf(With(m, p), t) == if t == p.target then p else ViewOf(m, t)
  {
    hide At, WithEntry, DeliveryOf, WithDelivery;
    EntrySet(m.states, p.target, p.live);
    EntrySet(m.authorities, p.target, p.authority);
    EntrySet(m.initializations, p.target, p.init);
    DeliverySet(m.delivery, p.target, p.delivery);
  }

  // Seeds ------------------------------------------------------------------------------------------

  ghost predicate SeedsOk(seeds: seq<Seed>) {
    && (forall s :: s in seeds ==> SeedOk(s))
    && (forall i, j :: 0 <= i < j < |seeds| ==> SeedTarget(seeds[i]) != SeedTarget(seeds[j]))
  }

  function SeedStates(seeds: seq<Seed>): map<Target, Live> {
    if seeds == [] then map[]
    else
      var s := seeds[|seeds| - 1];
      SeedStates(seeds[..|seeds| - 1])[SeedTarget(s) := Seeded(s).live.value]
  }

  /** Where the run of a target starts. */
  ghost function StartOf(seeds: seq<Seed>, t: Target): Plane {
    if t in SeedStates(seeds) then Plane(t, None, None, Some(SeedStates(seeds)[t]), map[]) else Start(t)
  }

  lemma {:induction false} StartsInitial(seeds: seq<Seed>, t: Target)
    requires forall s :: s in seeds ==> SeedOk(s)
    ensures Initial(StartOf(seeds, t)) && StartOf(seeds, t).target == t
    decreases |seeds|
  {
    hide Seeded;
    if seeds != [] {
      var s, front := seeds[|seeds| - 1], seeds[..|seeds| - 1];
      assert s in seeds;
      StartsInitial(front, t);
      if SeedTarget(s) == t {
        SeededShape(s);
        assert StartOf(seeds, t) == Seeded(s);
      } else {
        assert StartOf(seeds, t) == StartOf(front, t);
      }
    }
  }

  lemma SeededShape(s: Seed)
    ensures Seeded(s).live.Some? && Seeded(s) == Plane(SeedTarget(s), None, None, Some(Seeded(s).live.value), map[])
  {
  }

  lemma SeedsMore(seeds: seq<Seed>, i: nat)
    requires i < |seeds| && SeedsOk(seeds[..i]) && SeedOk(seeds[i])
    requires forall k :: 0 <= k < i ==> SeedTarget(seeds[k]) != SeedTarget(seeds[i])
    ensures SeedsOk(seeds[..i + 1])
  {
    hide SeedTarget, SeedOk;
    var a, b := seeds[..i], seeds[..i + 1];
    assert b == a + [seeds[i]] && forall k :: 0 <= k < i ==> a[k] == seeds[k];
  }

  /** create: every seed is an empty timeline with its own target. */
  method Create(seeds: seq<Seed>) returns (r: Result<BranchOwner>)
    ensures r.Ok? <==> SeedsOk(seeds)
    ensures r.Ok? ==> fresh(r.value) && r.value.Valid() && r.value.seeds == seeds && r.value.log == []
  {
    hide StartOf, InStep, SeedTarget;
    var targets: set<Target> := {};
    for i := 0 to |seeds|
      invariant targets == set k | 0 <= k < i :: SeedTarget(seeds[k])
      invariant SeedsOk(seeds[..i])
    {
      var s := seeds[i];
      assert seeds[..i + 1] == seeds[..i] + [s] && s in seeds;
      if s.branch.headSnapshotId != 0 || s.branch.headEventSeq != -1 { return Err(InvalidCommand); }
      if s.placement.routingVersion != 1 { return Err(RoutingVersionUnsupported); }
      if SeedTarget(s) in targets { return Err(InvalidCommand); }
      SeedsMore(seeds, i);
      targets := targets + {SeedTarget(s)};
    }
    assert seeds[..|seeds|] == seeds;
    var owner := new BranchOwner(seeds);
    r := Ok(owner);
  }

  // Tickets ----------------------------------------------------------------------------------------

  /** A writer between capture and publication, with the moment it captured. */
  datatype Ticket =
    | InitTicket(moment: nat, initialize: InitCommand, begunInit: Result<PreparedInit>)
    | CommitTicket(moment: nat, append: AppendRecord, now: int, begunCommit: Result<BegunCommit>)
    | BatchTicket(moment: nat, batch: BatchRecord, now: int, begunBatch: Result<BegunBatch>)

  function ActionOf(t: Ticket): Action {
    match t
    case InitTicket(m, c, _) => Initialize(m, c)
    case CommitTicket(m, c, now, _) => Commit(m, c, now)
    case BatchTicket(m, c, now, _) => Batch(m, c, now)
  }

  /** The second half of an operation, in the state that is there by then. */
  function FinishAt(latest: Plane, t: Ticket): Result<Done> {
    match t
    case InitTicket(_, c, begun) => InitFinish(latest, c, begun)
    case CommitTicket(_, c, _, begun) => CommitFinish(latest, c, begun)
    case BatchTicket(_, c, _, begun) => BatchFinish(latest, c, begun)
  }

  /** The ticket holds what was prepared in the state it captured. */
  ghost predicate TicketOk(seeds: seq<Seed>, log: seq<Action>, t: Ticket) {
    && t.moment <= |log|
    && var p := Run(StartOf(seeds, TargetOf(ActionOf(t))), log)[t.moment];
       match t
       case InitTicket(_, c, begun) => begun == InitBegin(p, c)
       case CommitTicket(_, c, now, begun) => begun == CommitBegin(p, c, now)
       case BatchTicket(_, c, now, begun) => begun == BatchBegin(p, c, now)
  }

  lemma RunPrefix(start: Plane, log: seq<Action>, a: Action, m: nat)
    requires m <= |log|
    ensures Run(start, log + [a]) == Run(start, log) + [Next(Run(start, log), a)]
    ensures Run(start, log + [a])[m] == Run(start, log)[m]
  {
    hide Next;
    assert (log + [a])[..|log + [a]| - 1] == log;
  }

  lemma TicketKept(seeds: seq<Seed>, log: seq<Action>, a: Action, t: Ticket)
    requires TicketOk(seeds, log, t)
    ensures TicketOk(seeds, log + [a], t)
  {
    hide Run, Next, InitBegin, CommitBegin, BatchBegin, StartOf;
    RunPrefix(StartOf(seeds, TargetOf(ActionOf(t))), log, a, t.moment);
  }

  /** Finishing a ticket is its action's step. */
  lemma TicketOutcome(seeds: seq<Seed>, log: seq<Action>, t: Ticket)
    requires TicketOk(seeds, log, t)
    ensures var target, a := TargetOf(ActionOf(t)), ActionOf(t);
            var history := Run(StartOf(seeds, target), log);
            history[|log|].target == target ==> Outcome(history, a) == FinishAt(history[|log|], t)
  {
    hide Run, InitBegin, CommitBegin, BatchBegin, InitFinish, CommitFinish, BatchFinish, ReserveAt, FactAt, PutAt,
         DeleteAt, StartOf;
  }

  function Answer(r: Result<Done>): Result<Reply> { if r.Ok? then Ok(r.value.reply) else Err(r.code) }

  // All branches at once -----------------------------------------------------------------------------

  /** Every branch is in the last state of its run. */
  ghost predicate InStep(m: Maps, seeds: seq<Seed>, log: seq<Action>) {
    forall t :: ViewOf(m, t) == Run(StartOf(seeds, t), log)[|log|]
  }

  lemma ViewIs(m: Maps, seeds: seq<Seed>, log: seq<Action>, t: Target)
    requires InStep(m, seeds, log)
    ensures ViewOf(m, t) == Run(StartOf(seeds, t), log)[|log|] && ViewOf(m, t).target == t
  {
  }

  lemma SafeView(m: Maps, seeds: seq<Seed>, log: seq<Action>, t: Target)
    requires SeedsOk(seeds) && InStep(m, seeds, log)
    ensures PlaneInv(ViewOf(m, t)) && forall i: nat :: i <= |log| ==>
              PlaneStep(Run(StartOf(seeds, t), log)[i], ViewOf(m, t))
  {
    hide PlaneInv, PlaneStep, Run, StartOf, Initial, InStep, ViewOf;
    ViewIs(m, seeds, log, t);
    StartsInitial(seeds, t);
    RunSafe(StartOf(seeds, t), log);
  }

  /** One delivery map serves all branches: an id that names a branch is registered for no other. */
  lemma OwnIdsOnly(m: Maps, seeds: seq<Seed>, log: seq<Action>, id: JsText.Text, kind: JsText.Text, t: Target)
    requires SeedsOk(seeds) && InStep(m, seeds, log) && id in m.delivery && Named(id, kind, t)
    ensures m.delivery[id].target == t && m.delivery[id].kind == kind
  {
    hide Run, StartOf, Named, LiveInv, LifecycleOk, AllIds, SeedsOk, InStep, PlaneStep;
    var row := m.delivery[id];
    SafeView(m, seeds, log, row.target);
    var p := ViewOf(m, row.target);
    assert id in p.delivery && p.delivery[id] == row;
    NamesApart(id, row.kind, row.target, kind, t);
  }

  lemma NextSafe(seeds: seq<Seed>, log: seq<Action>, t: Target, a: Action)
    requires SeedsOk(seeds)
    ensures PlaneInv(Next(Run(StartOf(seeds, t), log), a))
  {
    hide PlaneInv, PlaneStep, Run, StartOf, Initial, Next;
    StartsInitial(seeds, t);
    RunSafe(StartOf(seeds, t), log);
    var history := Run(StartOf(seeds, t), log);
    NextKeeps(history, a);
    var states := history + [Next(history, a)];
    assert PlaneInv(states[|states| - 1]);
  }

  /** Replacing one branch by its next state is one step of every run. */
  lemma WithKeeps(m: Maps, seeds: seq<Seed>, log: seq<Action>, a: Action, p: Plane)
    requires SeedsOk(seeds) && InStep(m, seeds, log) && p.target == TargetOf(a)
    requires p == Next(Run(StartOf(seeds, p.target), log), a)
    ensures InStep(With(m, p), seeds, log + [a])
    ensures forall t :: ViewOf(With(m, p), t) == if t == p.target then p else ViewOf(m, t)
  {
    hide Next, StartOf, SeedsOk, Named, LiveInv, LifecycleOk, AllIds, With, ViewOf;
    NextSafe(seeds, log, p.target, a);
    forall id | id in p.delivery
      ensures p.delivery[id].target == p.target && (id in m.delivery ==> m.delivery[id].target == p.target)
    {
      if id in m.delivery { OwnIdsOnly(m, seeds, log, id, p.delivery[id].kind, p.target); }
    }
    WithView(m, p);
    forall t ensures ViewOf(With(m, p), t) == Run(StartOf(seeds, t), log + [a])[|log + [a]|] {
      NextView(m, seeds, log, a, t);
    }
  }

  lemma NextView(m: Maps, seeds: seq<Seed>, log: seq<Action>, a: Action, t: Target)
    requires InStep(m, seeds, log)
    ensures Run(StartOf(seeds, t), log + [a])[|log + [a]|] ==
              if t == TargetOf(a) then Next(Run(StartOf(seeds, t), log), a) else ViewOf(m, t)
  {
    hide Next, StartOf, ViewOf, InStep;
    ViewIs(m, seeds, log, t);
    RunPrefix(StartOf(seeds, t), log, a, 0);
    if t != TargetOf(a) { OtherBranch(StartOf(seeds, t), log, a); }
  }

  lemma StartInStep(seeds: seq<Seed>)
    ensures InStep(Maps(SeedStates(seeds), map[], map[], map[]), seeds, [])
    ensures forall t :: ViewOf(Maps(SeedStates(seeds), map[], map[], map[]), t) == StartOf(seeds, t)
  {
    hide Next;
    forall t ensures ViewOf(Maps(SeedStates(seeds), map[], map[], map[]), t) == StartOf(seeds, t) {
      assert DeliveryOf(map[], t) == map[];
    }
    forall t ensures Run(StartOf(seeds, t), [])[0] == StartOf(seeds, t) { }
  }

  class BranchOwner {
    var states: map<Target, Live>
    var authorities: map<Target, Authority>
    var initializations: map<Target, InitRow>
    var delivery: Deliveries
    var steps: nat
    var tickets: map<nat, Ticket>
    var issued: nat
    ghost const seeds: seq<Seed>
    ghost var log: seq<Action>

    function State(): Maps
      reads this
    {
      Maps(states, authorities, initializations, delivery)
    }

    function View(t: Target): Plane
      reads this
    {
      ViewOf(State(), t)
    }

    ghost function History(t: Target): seq<Plane>
      reads this
    {
      Run(StartOf(seeds, t), log)
    }

    /** Every branch is in the last state of its run of the actions so far, and every ticket holds
        what its writer prepared. */
    ghost predicate Valid()
      reads this
    {
      && SeedsOk(seeds) && steps == |log| && InStep(State(), seeds, log)
      && (forall id :: id in tickets ==> id < issued && TicketOk(seeds, log, tickets[id]))
    }

    constructor (seeds: seq<Seed>)
      requires SeedsOk(seeds)
      ensures Valid() && this.seeds == seeds && log == [] && tickets == map[]
      ensures forall t :: View(t) == StartOf(seeds, t)
    {
      hide InStep, SeedsOk, StartOf, ViewOf;
      states, authorities, initializations, delivery := SeedStates(seeds), map[], map[], map[];
      steps, tickets, issued, log := 0, map[], 0, [];
      this.seeds := seeds;
      new;
      StartInStep(seeds);
    }

    /** In whatever order its methods are called, every branch keeps the joint invariant and all
        its history. */
    lemma AlwaysSafe(t: Target)
      requires Valid()
      ensures PlaneInv(View(t)) && forall m: nat :: m <= |log| ==> PlaneStep(History(t)[m], View(t))
    {
      hide PlaneInv, PlaneStep, InStep, SeedsOk, TicketOk, StartOf, ViewOf;
      SafeView(State(), seeds, log, t);
    }

    /** One replacement of a branch's rows: the last thing every publishing method does. */
    method Install(p: Plane, ghost a: Action)
      requires Valid() && p.target == TargetOf(a) && p == Next(History(p.target), a)
      modifies this
      ensures Valid() && log == old(log) + [a] && View(p.target) == p && tickets == old(tickets)
              && issued == old(issued)
      ensures forall t :: t != p.target ==> View(t) == old(View(t))
    {
      hide Next, TicketOk, InStep, StartOf, SeedsOk, ViewOf;
      WithKeeps(State(), seeds, log, a, p);
      var next := With(State(), p);
      states, authorities, initializations, delivery := next.states, next.authorities, next.initializations,
        next.delivery;
      steps := steps + 1;
      log := log + [a];
      forall id | id in tickets
        ensures TicketOk(seeds, log, tickets[id]) { TicketKept(seeds, old(log), a, tickets[id]); }
    }

    /** reserve */
    method ReserveBranch(c: ReserveCommand, now: int) returns (r: Result<Reply>)
      requires Valid()
      modifies this
      ensures Valid() && log == old(log) + [Reserve(c, now)] && tickets == old(tickets)
      ensures r == Answer(ReserveAt(old(View(c.target)), c, now))
      ensures forall t :: t != c.target ==> View(t) == old(View(t))
    {
      hide ReserveAt, StartOf, SeedsOk, TicketOk, InStep;
      var done := ReserveAt(View(c.target), c, now);
      r := Answer(done);
      ViewIs(State(), seeds, log, c.target);
      assert Outcome(History(c.target), Reserve(c, now)) == done;
      ReservedTarget(View(c.target), c, now);
      Install(if done.Ok? then done.value.plane else View(c.target), Reserve(c, now));
    }

    /** The first half of initialize, append and appendBatch: read, prepare, keep a ticket. */
    method BeginInitialize(c: InitCommand) returns (id: nat)
      requires Valid()
      modifies this`tickets, this`issued
      ensures Valid() && id == old(issued)
      ensures tickets == old(tickets)[id := InitTicket(|log|, c, InitBegin(View(c.target), c))]
    {
      hide InitBegin, StartOf, SeedsOk, InStep;
      ViewIs(State(), seeds, log, c.target);
      id := Issue(InitTicket(steps, c, InitBegin(View(c.target), c)));
    }

    method BeginCommit(c: AppendRecord, now: int) returns (id: nat)
      requires Valid()
      modifies this`tickets, this`issued
      ensures Valid() && id == old(issued)
      ensures tickets == old(tickets)[id := CommitTicket(|log|, c, now, CommitBegin(View(c.target), c, now))]
    {
      hide CommitBegin, StartOf, SeedsOk, InStep;
      ViewIs(State(), seeds, log, c.target);
      var begun := PrepareAppend(View(c.target), c, now);
      id := Issue(CommitTicket(steps, c, now, begun));
    }

    method BeginBatch(c: BatchRecord, now: int) returns (id: nat)
      requires Valid()
      modifies this`tickets, this`issued
      ensures Valid() && id == old(issued)
      ensures tickets == old(tickets)[id := BatchTicket(|log|, c, now, BatchBegin(View(c.target), c, now))]
    {
      hide BatchBegin, StartOf, SeedsOk, InStep;
      ViewIs(State(), seeds, log, c.target);
      var begun := PrepareEnvelope(View(c.target), c, now);
      id := Issue(BatchTicket(steps, c, now, begun));
    }

    method Issue(t: Ticket) returns (id: nat)
      requires Valid() && TicketOk(seeds, log, t)
      modifies this`tickets, this`issued
      ensures Valid() && id == old(issued) && tickets == old(tickets)[id := t]
    {
      hide TicketOk, StartOf, SeedsOk, InStep;
      id := issued;
      tickets, issued := tickets[id := t], issued + 1;
    }

    /** The second half: recheck in the state that is there by now and publish, or not. Other
        writers may have published any number of times in between. */
    method Finish(id: nat) returns (r: Result<Reply>)
      requires Valid() && id in tickets
      modifies this
      ensures Valid() && log == old(log) + [ActionOf(old(tickets[id]))] && tickets == old(tickets) - {id}
      ensures var a := ActionOf(old(tickets[id])); r == Answer(Outcome(old(History(TargetOf(a))), a))
      ensures var t := old(tickets[id]); r == Answer(FinishAt(old(View(TargetOf(ActionOf(t)))), t))
      ensures forall t :: t != TargetOf(ActionOf(old(tickets[id]))) ==> View(t) == old(View(t))
    {
      hide FinishAt, TicketOk, Outcome, StartOf, SeedsOk, InStep;
      var t := tickets[id];
      TicketOutcome(seeds, log, t);
      var target := TargetOf(ActionOf(t));
      ViewIs(State(), seeds, log, target);
      var done := FinishAt(View(target), t);
      r := Answer(done);
      FinishTarget(View(target), t);
      tickets := tickets - {id};
      Install(if done.Ok? then done.value.plane else View(target), ActionOf(t));
    }

    /** appendRuntimeFact: synchronous from the lookup on. */
    method AppendRuntimeFact(c: FactCommand, now: int) returns (r: Result<Reply>)
      requires Valid()
      modifies this
      ensures Valid() && log == old(log) + [AddFact(c, now)] && tickets == old(tickets)
      ensures r == Answer(FactAt(old(View(c.target)), c, now))
      ensures forall t :: t != c.target ==> View(t) == old(View(t))
    {
      hide FactAt, StartOf, SeedsOk, TicketOk, InStep;
      var done := FactAt(View(c.target), c, now);
      r := Answer(done);
      ViewIs(State(), seeds, log, c.target);
      assert Outcome(History(c.target), AddFact(c, now)) == done;
      FactTarget(View(c.target), c, now);
      Install(if done.Ok? then done.value.plane else View(c.target), AddFact(c, now));
    }

    /** putNullMem: the integrity check, then the mutation. */
    method PutNullMem(c: PutCommand, now: int) returns (r: Result<Reply>)
      requires Valid()
      modifies this
      ensures Valid() && log == old(log) + [PutMem(c, now)] && tickets == old(tickets)
      ensures r == Answer(PutAt(old(View(c.target)), c, now))
      ensures forall t :: t != c.target ==> View(t) == old(View(t))
    {
      hide PutAt, StartOf, SeedsOk, TicketOk, InStep;
      var done := PutChecked(View(c.target), c, now);
      r := Answer(done);
      ViewIs(State(), seeds, log, c.target);
      assert Outcome(History(c.target), PutMem(c, now)) == done;
      Install(if done.Ok? then done.value.plane else View(c.target), PutMem(c, now));
    }

    /** deleteNullMem */
    method DeleteNullMem(c: DeleteCommand, now: int) returns (r: Result<Reply>)
      requires Valid()
      modifies this
      ensures Valid() && log == old(log) + [DeleteMem(c, now)] && tickets == old(tickets)
      ensures r == Answer(DeleteAt(old(View(c.target)), c, now))
      ensures forall t :: t != c.target ==> View(t) == old(View(t))
    {
      hide DeleteAt, StartOf, SeedsOk, TicketOk, InStep;
      var done := DeleteChecked(View(c.target), c, now);
      r := Answer(done);
      ViewIs(State(), seeds, log, c.target);
      assert Outcome(History(c.target), DeleteMem(c, now)) == done;
      Install(if done.Ok? then done.value.plane else View(c.target), DeleteMem(c, now));
    }

    /** queryNullMem: the selection of the live records, at the live head and revision; whatever was
        done before, it passes the client's check. */
    method QueryNullMem(target: Target, placement: Placement, query: Query, rk: Ranking)
      returns (r: Result<QueryResult>)
      requires Valid() && TotalPreorder(rk.locale)
      ensures r.Ok? <==> QueryOk(query) && StateError(View(target), placement).None?
      ensures r.Ok? ==> IsLiveAnswer(View(target), target, placement, query, rk, r.value)
      ensures r.Ok? ==> Passes(r.value, target, placement, query, rk)
    {
      hide InStep, Passes, StateError, MemoryInv, Inv, FactsInv, LifecycleOk, DeliveryOk, IsAnswer, RouteError,
           TotalPreorder, StartOf, SeedsOk, TicketOk;
      if !QueryOk(query) { return Err(InvalidCommand); }
      var p := View(target);
      var error := StateError(p, placement);
      if error.Some? { return Err(error.value); }
      AlwaysSafe(target);
      Routed(p, placement);
      var l := p.live.value;
      var corrupt := CheckAccess(l.doc, l.memory, placement);
      if corrupt.Some? {
        r := Err(corrupt.value);
        MemoryNeverCorrupt(p, placement);
        assert false;
        return;
      }
      var selected := QueryRecords(l.memory.records, query, rk);
      RoutedPlacement(p, placement);
      ReachableAnswersPass(l.doc, l.memory, query, rk, selected.value);
      r := Ok(QueryResult(MemoryResult(target, placement, l.doc.head, l.memory.revision), selected.value));
    }

    /** A writer that gives up. */
    method Reject(id: nat)
      requires Valid()
      modifies this`tickets
      ensures Valid() && tickets == old(tickets) - {id}
    {
      hide TicketOk, StartOf, SeedsOk, InStep;
      tickets := tickets - {id};
    }
  }

  ghost predicate IsLiveAnswer(p: Plane, target: Target, placement: Placement, query: Query, rk: Ranking,
                               v: QueryResult)
    requires QueryOk(query)
  {
    && p.live.Some? && IsAnswer(p.live.value.memory.records, query, rk, v.records)
    && v.result == MemoryResult(target, placement, p.live.value.doc.head, p.live.value.memory.revision)
  }

  lemma OtherBranch(start: Plane, log: seq<Action>, a: Action)
    requires Run(start, log)[|log|].target != TargetOf(a)
    ensures Next(Run(start, log), a) == Run(start, log)[|log|]
  {
    hide Run;
  }

  lemma ReservedTarget(p: Plane, c: ReserveCommand, now: int)
    ensures ReserveAt(p, c, now).Ok? ==> ReserveAt(p, c, now).value.plane.target == p.target
  {
  }

  lemma FinishTarget(p: Plane, t: Ticket)
    ensures FinishAt(p, t).Ok? ==> FinishAt(p, t).value.plane.target == p.target
  {
    hide Publish, StateError, FromRecord, OfBatch, OfCommit, InitialDoc, KnownReceipt;
  }

  lemma FactTarget(p: Plane, c: FactCommand, now: int)
    ensures FactAt(p, c, now).Ok? ==> FactAt(p, c, now).value.plane.target == p.target
  {
    hide AppendFact, CaptureFact, StateError, FactRowId;
  }

  /** The reading half of append. */
  method PrepareAppend(p: Plane, input: AppendRecord, now: int) returns (r: Result<BegunCommit>)
    ensures r == CommitBegin(p, input, now)
  {
    hide PrepareCommit, StateError;
    var record := FromRecord(input);
    if record.Err? { return Err(record.code); }
    var c := record.value;
    var error := StateError(p, c.placement);
    if error.Some? { return Err(error.value); }
    Routed(p, c.placement);
    var d := p.live.value.doc;
    if c.event.eventId in d.receipts {
      var q := d.receipts[c.event.eventId];
      return if q.payloadHash != c.payloadHash then Err(DiffEventIdReused) else Ok(Repeated(q));
    }
    if d.head.version.snapshotId !in d.snapshots { return Err(StateCorrupt); }
    var prepared := PrepareBranchCommit(c, d.head, d.snapshots[d.head.version.snapshotId].content, now);
    r := if prepared.Err? then Err(prepared.code) else Ok(Ready(prepared.value));
  }

  /** The reading half of one attempt of appendBatch. */
  method PrepareEnvelope(p: Plane, input: BatchRecord, now: int) returns (r: Result<BegunBatch>)
    ensures r == BatchBegin(p, input, now)
  {
    hide PrepareBatch, StateError;
    var record := CaptureBatch(input);
    if record.Err? { return Err(record.code); }
    var c := record.value;
    var error := StateError(p, c.placement);
    if error.Some? { return Err(error.value); }
    Routed(p, c.placement);
    var d := p.live.value.doc;
    if d.head.version.snapshotId !in d.snapshots { return Err(StateCorrupt); }
    var content := d.snapshots[d.head.version.snapshotId].content;
    var prepared := PrepareBranchBatch(c, HashEvents(c.events), d.head, content, d.receipts, now);
    r := if prepared.Err? then Err(prepared.code) else Ok(BegunBatch(d.head.version, prepared.value));
  }

  lemma RoutedPlacement(p: Plane, placement: Placement)
    requires PlaneInv(p) && p.live.Some? && RouteError(placement, p.live.value.doc.head).None?
    ensures placement == p.live.value.doc.head.placement && p.target == p.live.value.doc.head.target
    ensures Inv(p.live.value.doc) && MemoryInv(p.live.value.doc, p.live.value.memory)
  {
    hide Inv, FactsInv, MemoryInv, LifecycleOk, DeliveryOk;
  }

  /** nullMemState: content, integrity of the whole memory, and stored versions of its log. */
  method CheckAccess(d: Doc, mem: Memory, placement: Placement) returns (error: Option<Code>)
    ensures error == AccessError(d, mem, placement)
  {
    hide StateValid, RouteError, ContentError, LogStored;
    error := RouteError(placement, d.head);
    if error.Some? { return; }
    error := ContentError(d, d.head.version);
    if error.Some? { return; }
    var ok := ValidateState(d.head, mem, EMPTY);
    error := if ok && LogStored(d, mem.log) then None else Some(StateCorrupt);
  }

  method PutChecked(p: Plane, input: PutCommand, now: int) returns (r: Result<Done>)
    ensures r == PutAt(p, input, now) && (r.Ok? ==> r.value.plane.target == p.target)
  {
    hide AccessError, StateError, PreparePut, ValidRecord, SetRecord;
    var command := CapturePut(input);
    if command.Err? { return Err(command.code); }
    var error := StateError(p, input.placement);
    if error.Some? { return Err(error.value); }
    Routed(p, input.placement);
    var l := p.live.value;
    var corrupt := CheckAccess(l.doc, l.memory, command.value.placement);
    if corrupt.Some? { return Err(corrupt.value); }
    if !Authorized(command.value.actorAccountId, l.doc.head) { return Err(Forbidden); }
    var entry := PreparePut(command.value, l.doc.head, l.memory.revision, now);
    if entry.Err? { return Err(entry.code); }
    var records := SetRecord(l.memory.records, Stamped(command.value.record, now));
    r := PublishedMutation(p, l, Memory(l.memory.revision + 1, records, l.memory.log + [entry.value]), entry.value);
  }

  method DeleteChecked(p: Plane, c: DeleteCommand, now: int) returns (r: Result<Done>)
    ensures r == DeleteAt(p, c, now) && (r.Ok? ==> r.value.plane.target == p.target)
  {
    hide AccessError, StateError, PrepareDelete, RemoveRecords;
    if c.actorAccountId == [] { return Err(InvalidCommand); }
    var error := StateError(p, c.placement);
    if error.Some? { return Err(error.value); }
    Routed(p, c.placement);
    var l := p.live.value;
    var corrupt := CheckAccess(l.doc, l.memory, c.placement);
    if corrupt.Some? { return Err(corrupt.value); }
    if !Authorized(c.actorAccountId, l.doc.head) { return Err(Forbidden); }
    var entry := PrepareDelete(c, l.doc.head, l.memory.revision, now);
    if entry.Err? { return Err(entry.code); }
    var records := RemoveRecords(l.memory.records, c.recordId);
    r := PublishedMutation(p, l, Memory(l.memory.revision + 1, records, l.memory.log + [entry.value]), entry.value);
  }
}
