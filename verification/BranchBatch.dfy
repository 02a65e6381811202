/** prepareBranchBatch of shared/drop/branch-batch.ts: one envelope against a captured head. */
module BranchBatch {
  import opened Wrappers
  import opened JsText
  import opened BranchState
  import BranchCommit

  datatype BatchRecord = BatchRecord(target: Target, placement: Placement, events: seq<Event>)

  /** An event with its payload hash. */
  datatype Identity = Identity(event: Event, payloadHash: Digest)

  datatype AckStatus = Accepted | Duplicate
  datatype Ack = Ack(eventId: Text, seq_: int, snapshotId: int, status: AckStatus)

  datatype BatchResult = BatchResult(
    branch: Branch, snapshot: Option<Snapshot>, content: Text, acceptedEvents: seq<Event>,
    deduplicatedCount: int, totalStored: int, acknowledgements: seq<Ack>)

  datatype PreparedBatch = PreparedBatch(
    result: BatchResult, version: Version, receipts: seq<Receipt>, outbox: Option<OutboxRow>)

  /** captureBranchBatchAppend: every event is for this root and can be decoded; server-assigned fields are dropped. */
  function CaptureBatch(input: BatchRecord): (r: Result<BatchRecord>)
    ensures r.Ok? <==> forall e :: e in input.events ==>
              e.dropId == input.target.rootDropId && forall op :: op in e.ops ==> Decodable(op)
    ensures r.Err? ==> r.code == InvalidCommand
    ensures r.Ok? ==> r.value.target == input.target && r.value.placement == input.placement
    ensures r.Ok? ==> |r.value.events| == |input.events|
    ensures r.Ok? ==> forall i :: 0 <= i < |input.events| ==> r.value.events[i] == Unassigned(input.events[i])
  {
    if exists i :: 0 <= i < |input.events| && input.events[i].dropId != input.target.rootDropId then Err(InvalidCommand)
    else if exists e :: e in input.events && exists op :: op in e.ops && !Decodable(op) then Err(InvalidCommand)
    else Ok(input.(events := seq(|input.events|, i requires 0 <= i < |input.events| => Unassigned(input.events[i]))))
  }

  /** hashBranchBatchEvents */
  function HashEvents(events: seq<Event>): (ids: seq<Identity>)
    ensures |ids| == |events| && forall i :: 0 <= i < |ids| ==> ids[i] == Identity(events[i], PayloadHash(events[i]))
  {
    seq(|events|, i requires 0 <= i < |events| => Identity(events[i], PayloadHash(events[i])))
  }

  // Classification ----------------------------------------------------------------------

  /** An event id that stands for two different payloads, in the envelope or against history. */
  ghost predicate Reused(ids: seq<Identity>, existing: map<Text, Receipt>) {
    || (exists i :: 0 <= i < |ids| && ids[i].event.eventId in existing
                    && existing[ids[i].event.eventId].payloadHash != ids[i].payloadHash)
    || (exists i, j :: 0 <= i < j < |ids| && ids[i].event.eventId == ids[j].event.eventId
                       && ids[i].payloadHash != ids[j].payloadHash)
  }

  /** The first mention of an event id in the envelope. */
  ghost predicate First(ids: seq<Identity>, i: nat)
    requires i < |ids|
  {
    forall j :: 0 <= j < i ==> ids[j].event.eventId != ids[i].event.eventId
  }

  /** First mentions, in order. */
  ghost function Firsts(ids: seq<Identity>, n: nat): (r: seq<Identity>)
    requires n <= |ids|
  {
    if n == 0 then [] else Firsts(ids, n - 1) + (if First(ids, n - 1) then [ids[n - 1]] else [])
  }

  /** First mentions without a receipt: what the envelope adds. */
  ghost function Fresh(ids: seq<Identity>, existing: map<Text, Receipt>, n: nat): (r: seq<Identity>)
    requires n <= |ids|
    ensures |r| <= n
  {
    if n == 0 then []
    else Fresh(ids, existing, n - 1) +
         (if First(ids, n - 1) && ids[n - 1].event.eventId !in existing then [ids[n - 1]] else [])
  }

  ghost predicate PredecessorsMatch(accepted: seq<Identity>, headSeq: int) {
    forall i :: 0 <= i < |accepted| && FollowsSeq(accepted[i].event).Some? ==>
      FollowsSeq(accepted[i].event).value == headSeq + i
  }

  // The prepared rows -------------------------------------------------------------------

  function Placed(accepted: seq<Identity>, headSeq: int, snapshotId: int): (events: seq<Event>)
    ensures |events| == |accepted|
  {
    seq(|accepted|, i requires 0 <= i < |accepted| =>
      accepted[i].event.(seq_ := headSeq + i + 1, snapshotId := Some(snapshotId)))
  }

  function ReceiptsFor(command: BatchRecord, accepted: seq<Identity>, headSeq: int,
                       version: Version): (rs: seq<Receipt>)
    ensures |rs| == |accepted|
  {
    seq(|accepted|, i requires 0 <= i < |accepted| =>
      Receipt(command.target, command.placement, accepted[i].event.eventId, accepted[i].payloadHash,
              Some(headSeq + i + 1), version))
  }

  function EventIds(events: seq<Event>): (r: seq<Text>)
    ensures |r| == |events|
  {
    seq(|events|, i requires 0 <= i < |events| => events[i].eventId)
  }

  function ById(receipts: seq<Receipt>): (m: map<Text, Receipt>) {
    if receipts == [] then map[]
    else ById(receipts[..|receipts| - 1])[receipts[|receipts| - 1].eventId := receipts[|receipts| - 1]]
  }

  /** One acknowledgement per distinct event id: the stored receipt wins. */
  ghost function AckFor(eventId: Text, existing: map<Text, Receipt>, added: map<Text, Receipt>): Ack
    requires eventId in existing || eventId in added
  {
    var r := if eventId in existing then existing[eventId] else added[eventId];
    Ack(eventId, SeqOf(r), r.version.snapshotId, if eventId in existing then Duplicate else Accepted)
  }

  ghost predicate Covered(firsts: seq<Identity>, existing: map<Text, Receipt>, added: map<Text, Receipt>) {
    forall i :: 0 <= i < |firsts| ==> firsts[i].event.eventId in existing || firsts[i].event.eventId in added
  }

  ghost function Acks(firsts: seq<Identity>, existing: map<Text, Receipt>, added: map<Text, Receipt>): (r: seq<Ack>)
    requires Covered(firsts, existing, added)
    ensures |r| == |firsts|
  {
    seq(|firsts|, i requires 0 <= i < |firsts| => AckFor(firsts[i].event.eventId, existing, added))
  }

  function HeadError(command: BatchRecord, head: Head, committedAt: int): Option<Code> {
    if head.target != command.target || !HeadCoherent(head) then Some(StateCorrupt)
    else if head.placement.routingVersion != command.placement.routingVersion then Some(RoutingVersionUnsupported)
    else if head.placement.generation != command.placement.generation then Some(RoutingGenerationMismatch)
    else if !IsSafe(head.version.eventSeq) || head.version.eventSeq < -1 || head.version.eventSeq >= MAX_SAFE
            || !IsSafe(head.version.snapshotId) || head.version.snapshotId < 0 then Some(DiffSequenceExhausted)
    else if !IsSafe(committedAt) || committedAt < 0 then Some(InvalidCommand)
    else None
  }

  ghost function BatchError(command: BatchRecord, ids: seq<Identity>, head: Head, content: Text,
                            existing: map<Text, Receipt>, committedAt: int): Option<Code>
  {
    var accepted := Fresh(ids, existing, |ids|);
    if HeadError(command, head, committedAt).Some? then HeadError(command, head, committedAt)
    else if Reused(ids, existing) then Some(DiffEventIdReused)
    else if !PredecessorsMatch(accepted, head.version.eventSeq) then Some(DiffPredecessorMismatch)
    else if HashSource(content) != head.version.sourceContentHash then Some(StateCorrupt)
    else if accepted != [] && (!IsSafe(head.version.snapshotId + 1)
                               || !IsSafe(head.version.eventSeq + |accepted| + 1)) then
      Some(DiffSequenceExhausted)
    else None
  }

  /** Everything but the acknowledgements, once the events to add are known. */
  function Rows(command: BatchRecord, accepted: seq<Identity>, head: Head, content: Text,
                committedAt: int): (r: PreparedBatch)
    ensures r.result.snapshot.Some? == r.outbox.Some? == (accepted != [])
  {
    var headSeq := head.version.eventSeq;
    var deduplicated := |command.events| - |accepted|;
    if accepted == [] then
      PreparedBatch(BatchResult(head.branch, None, content, [], deduplicated, headSeq + 1, []), head.version, [], None)
    else
      var snapshotId, terminal := head.version.snapshotId + 1, headSeq + |accepted|;
      var events := Placed(accepted, headSeq, snapshotId);
      var next := ApplyEvents(content, events);
      var version := Version(snapshotId, terminal, HashSource(next));
      var receipts := ReceiptsFor(command, accepted, headSeq, version);
      PreparedBatch(
        BatchResult(head.branch.(headSnapshotId := snapshotId, headEventSeq := terminal, updatedAt := committedAt),
                    Some(Snapshot(command.target, snapshotId, Some(head.version.snapshotId), snapshotId,
                                  EventIds(events), true,
                                  Some(headSeq + 1), Some(terminal), |next|, HashSource(next), committedAt)),
                    next, events, deduplicated, terminal + 1, []),
        version, receipts,
        Some(BatchRow(BatchRowId(command.target, snapshotId), command.target, command.placement, version,
                      head.version.snapshotId, EventIds(events), receipts, deduplicated, terminal + 1)))
  }

  ghost function PrepareBatch(command: BatchRecord, ids: seq<Identity>, head: Head, content: Text,
                              existing: map<Text, Receipt>, committedAt: int): (r: Result<PreparedBatch>)
    ensures r.Ok? <==> BatchError(command, ids, head, content, existing, committedAt).None?
  {
    var error := BatchError(command, ids, head, content, existing, committedAt);
    if error.Some? then Err(error.value)
    else
      var rows := Rows(command, Fresh(ids, existing, |ids|), head, content, committedAt);
      FirstsCovered(ids, existing, rows.receipts);
      var acks := Acks(Firsts(ids, |ids|), existing, ById(rows.receipts));
      Ok(rows.(result := rows.result.(acknowledgements := acks)))
  }

  // Facts about the classification --------------------------------------------------------

  ghost function IdSet(s: seq<Identity>): set<Text> { set x | x in s :: x.event.eventId }

  /** First mentions have the ids of the whole envelope. */
  lemma {:induction false} FirstsMembers(ids: seq<Identity>, n: nat)
    requires n <= |ids|
    ensures IdSet(Firsts(ids, n)) == IdSet(ids[..n])
    ensures forall x :: x in Firsts(ids, n) ==> x in ids
  {
    if n > 0 {
      FirstsMembers(ids, n - 1);
      var f, last := Firsts(ids, n - 1), ids[n - 1];
      assert ids[..n] == ids[..n - 1] + [last];
      assert IdSet(ids[..n]) == IdSet(ids[..n - 1]) + {last.event.eventId} by { IdSetAppend(ids[..n - 1], last); }
      IdSetAppend(f, last);
      if !First(ids, n - 1) {
        var j :| 0 <= j < n - 1 && ids[j].event.eventId == last.event.eventId;
        assert ids[..n - 1][j] == ids[j];
        assert last.event.eventId in IdSet(ids[..n - 1]);
      }
    }
  }

  lemma IdSetAppend(s: seq<Identity>, x: Identity)
    ensures IdSet(s + [x]) == IdSet(s) + {x.event.eventId}
  {
  }

  lemma {:induction false} FreshMember(ids: seq<Identity>, existing: map<Text, Receipt>, n: nat, x: Identity)
    requires n <= |ids|
    ensures x in Fresh(ids, existing, n) <==> x in Firsts(ids, n) && x.event.eventId !in existing
  {
    hide First;
    if n > 0 { FreshMember(ids, existing, n - 1, x); }
  }

  lemma {:induction false} FreshMembers(ids: seq<Identity>, existing: map<Text, Receipt>, n: nat)
    requires n <= |ids|
    ensures forall x :: x in Fresh(ids, existing, n) <==> x in Firsts(ids, n) && x.event.eventId !in existing
  {
    hide Fresh, Firsts;
    forall x ensures x in Fresh(ids, existing, n) <==> x in Firsts(ids, n) && x.event.eventId !in existing {
      FreshMember(ids, existing, n, x);
    }
  }

  /** No event id is first twice. */
  lemma {:induction false} FirstsDistinct(ids: seq<Identity>, n: nat)
    requires n <= |ids|
    ensures Distinct(Firsts(ids, n))
  {
    if n > 0 {
      FirstsDistinct(ids, n - 1);
      if First(ids, n - 1) { NewcomerDistinct(ids, Firsts(ids, n - 1), n - 1); }
    }
  }

  ghost predicate Distinct(s: seq<Identity>) {
    forall i, j :: 0 <= i < j < |s| ==> s[i].event.eventId != s[j].event.eventId
  }

  lemma NewcomerDistinct(ids: seq<Identity>, s: seq<Identity>, n: nat)
    requires n < |ids| && First(ids, n) && Distinct(s) && forall x :: x in s ==> x in Firsts(ids, n)
    ensures Distinct(s + [ids[n]])
  {
    FirstsMembers(ids, n);
    forall i | 0 <= i < |s| ensures s[i].event.eventId != ids[n].event.eventId {
      assert s[i] in Firsts(ids, n);
      assert s[i].event.eventId in IdSet(ids[..n]);
    }
  }

  lemma {:induction false} FreshDistinct(ids: seq<Identity>, existing: map<Text, Receipt>, n: nat)
    requires n <= |ids|
    ensures Distinct(Fresh(ids, existing, n))
  {
    if n > 0 {
      FreshDistinct(ids, existing, n - 1);
      FreshMembers(ids, existing, n - 1);
      if First(ids, n - 1) { NewcomerDistinct(ids, Fresh(ids, existing, n - 1), n - 1); }
    }
  }

  lemma {:induction false} ByIdHas(receipts: seq<Receipt>)
    ensures forall i :: 0 <= i < |receipts| ==> receipts[i].eventId in ById(receipts)
    ensures forall k :: k in ById(receipts) ==> ById(receipts)[k] in receipts && ById(receipts)[k].eventId == k
    decreases |receipts|
  {
    if receipts != [] {
      var front := receipts[..|receipts| - 1];
      ByIdHas(front);
      assert forall i :: 0 <= i < |front| ==> front[i] == receipts[i];
    }
  }

  /** Every distinct id of the envelope has a stored or a new receipt to acknowledge. */
  lemma FirstsCovered(ids: seq<Identity>, existing: map<Text, Receipt>, rs: seq<Receipt>)
    requires var accepted := Fresh(ids, existing, |ids|);
             |rs| == |accepted| && forall k :: 0 <= k < |rs| ==> rs[k].eventId == accepted[k].event.eventId
    ensures Covered(Firsts(ids, |ids|), existing, ById(rs))
  {
    var firsts, accepted := Firsts(ids, |ids|), Fresh(ids, existing, |ids|);
    FreshMembers(ids, existing, |ids|);
    ByIdHas(rs);
    forall i | 0 <= i < |firsts| && firsts[i].event.eventId !in existing ensures firsts[i].event.eventId in ById(rs) {
      assert firsts[i] in firsts;
      var k :| 0 <= k < |accepted| && accepted[k] == firsts[i];
      assert rs[k].eventId == accepted[k].event.eventId;
    }
  }

  // The loops ---------------------------------------------------------------------------

  /** What the classification loop knows after `n` identities: `unique` holds the first mention
      of every id so far, and every mention agrees with it. */
  ghost predicate Classified(ids: seq<Identity>, n: nat, unique: map<Text, Identity>)
    requires n <= |ids|
  {
    && (forall k :: 0 <= k < n ==> ids[k].event.eventId in unique
                                   && unique[ids[k].event.eventId].payloadHash == ids[k].payloadHash)
    && (forall id :: id in unique ==> unique[id].event.eventId == id && exists k :: 0 <= k < n && ids[k] == unique[id])
  }

  ghost predicate NoneReused(ids: seq<Identity>, n: nat, existing: map<Text, Receipt>)
    requires n <= |ids|
  {
    forall k :: 0 <= k < n && ids[k].event.eventId in existing ==>
      existing[ids[k].event.eventId].payloadHash == ids[k].payloadHash
  }

  lemma UniqueDecidesFirst(ids: seq<Identity>, n: nat, unique: map<Text, Identity>)
    requires n < |ids| && Classified(ids, n, unique)
    ensures First(ids, n) <==> ids[n].event.eventId !in unique
  {
    if ids[n].event.eventId in unique {
      var k :| 0 <= k < n && ids[k] == unique[ids[n].event.eventId];
    }
  }

  lemma ClassifiedStep(ids: seq<Identity>, n: nat, unique: map<Text, Identity>)
    requires n < |ids| && Classified(ids, n, unique)
    ensures ids[n].event.eventId !in unique ==> Classified(ids, n + 1, unique[ids[n].event.eventId := ids[n]])
    ensures ids[n].event.eventId in unique && unique[ids[n].event.eventId].payloadHash == ids[n].payloadHash ==>
              Classified(ids, n + 1, unique)
    ensures ids[n].event.eventId in unique && unique[ids[n].event.eventId].payloadHash != ids[n].payloadHash ==>
              forall existing :: Reused(ids, existing)
  {
    if ids[n].event.eventId in unique {
      var k :| 0 <= k < n && ids[k] == unique[ids[n].event.eventId];
    }
  }

  /** A repeated mention that agrees with its first agrees with history when the first does. */
  lemma RepeatAgrees(ids: seq<Identity>, n: nat, unique: map<Text, Identity>, existing: map<Text, Receipt>)
    requires n < |ids| && Classified(ids, n, unique) && NoneReused(ids, n, existing)
    requires ids[n].event.eventId in unique && unique[ids[n].event.eventId].payloadHash == ids[n].payloadHash
    ensures NoneReused(ids, n + 1, existing)
  {
    var k :| 0 <= k < n && ids[k] == unique[ids[n].event.eventId];
  }

  lemma NothingClassified(ids: seq<Identity>, existing: map<Text, Receipt>)
    ensures Classified(ids, 0, map[]) && NoneReused(ids, 0, existing)
  {
  }

  lemma HistoryStep(ids: seq<Identity>, n: nat, existing: map<Text, Receipt>)
    requires n < |ids| && NoneReused(ids, n, existing)
    ensures var id := ids[n].event.eventId;
            if id in existing && existing[id].payloadHash != ids[n].payloadHash then Reused(ids, existing)
              else NoneReused(ids, n + 1, existing)
  {
  }

  lemma ClassifiedDone(ids: seq<Identity>, unique: map<Text, Identity>, existing: map<Text, Receipt>)
    requires Classified(ids, |ids|, unique) && NoneReused(ids, |ids|, existing)
    ensures !Reused(ids, existing)
  {
  }

  /** The `unique` and `accepted` loop. */
  method Classify(ids: seq<Identity>, existing: map<Text, Receipt>)
    returns (reused: bool, firsts: seq<Identity>, accepted: seq<Identity>)
    ensures reused <==> Reused(ids, existing)
    ensures !reused ==> firsts == Firsts(ids, |ids|) && accepted == Fresh(ids, existing, |ids|)
  {
    hide Classified, NoneReused, Reused, First;
    var unique: map<Text, Identity> := map[];
    NothingClassified(ids, existing);
    reused, firsts, accepted := false, [], [];
    for i := 0 to |ids|
      invariant !reused && firsts == Firsts(ids, i) && accepted == Fresh(ids, existing, i)
      invariant Classified(ids, i, unique) && NoneReused(ids, i, existing)
    {
      var identity := ids[i];
      var id := identity.event.eventId;
      UniqueDecidesFirst(ids, i, unique);
      ClassifiedStep(ids, i, unique);
      if id in unique {
        if unique[id].payloadHash != identity.payloadHash { return true, [], []; }
        RepeatAgrees(ids, i, unique, existing);
      } else {
        unique := unique[id := identity];
        firsts := firsts + [identity];
        HistoryStep(ids, i, existing);
        if id in existing {
          if existing[id].payloadHash != identity.payloadHash { return true, [], []; }
        } else {
          accepted := accepted + [identity];
        }
      }
    }
    ClassifiedDone(ids, unique, existing);
  }

  method CheckPredecessors(accepted: seq<Identity>, headSeq: int) returns (ok: bool)
    ensures ok <==> PredecessorsMatch(accepted, headSeq)
  {
    for index := 0 to |accepted|
      invariant forall i :: 0 <= i < index && FollowsSeq(accepted[i].event).Some? ==>
                  FollowsSeq(accepted[i].event).value == headSeq + i
    {
      var follows := FollowsSeq(accepted[index].event);
      if follows.Some? && follows.value != headSeq + index { return false; }
    }
    ok := true;
  }

  method FoldEvents(content: Text, events: seq<Event>) returns (next: Text)
    ensures next == ApplyEvents(content, events)
  {
    next := content;
    for i := 0 to |events|
      invariant next == ApplyEvents(content, events[..i])
    {
      assert events[..i + 1][..i] == events[..i];
      next := BranchCommit.FoldOps(next, events[i].ops);
    }
    assert events[..|events|] == events;
  }

  method Acknowledge(firsts: seq<Identity>, existing: map<Text, Receipt>, receipts: seq<Receipt>)
    returns (acks: seq<Ack>)
    requires Covered(firsts, existing, ById(receipts))
    ensures acks == Acks(firsts, existing, ById(receipts))
  {
    var added := ById(receipts);
    acks := [];
    for i := 0 to |firsts|
      invariant |acks| == i && forall k :: 0 <= k < i ==> acks[k] == AckFor(firsts[k].event.eventId, existing, added)
    {
      var id := firsts[i].event.eventId;
      var r := if id in existing then existing[id] else added[id];
      acks := acks + [Ack(id, SeqOf(r), r.version.snapshotId, if id in existing then Duplicate else Accepted)];
    }
  }

  /** prepareBranchBatch */
  method PrepareBranchBatch(command: BatchRecord, ids: seq<Identity>, head: Head, content: Text,
                            existing: map<Text, Receipt>, committedAt: int)
    returns (r: Result<PreparedBatch>)
    ensures r == PrepareBatch(command, ids, head, content, existing, committedAt)
  {
    var error := HeadError(command, head, committedAt);
    if error.Some? { return Err(error.value); }
    var reused, firsts, accepted := Classify(ids, existing);
    if reused { return Err(DiffEventIdReused); }
    var headSeq := head.version.eventSeq;
    var follow := CheckPredecessors(accepted, headSeq);
    if !follow { return Err(DiffPredecessorMismatch); }
    if HashSource(content) != head.version.sourceContentHash { return Err(StateCorrupt); }
    if accepted != [] && (!IsSafe(head.version.snapshotId + 1) || !IsSafe(headSeq + |accepted| + 1)) {
      return Err(DiffSequenceExhausted);
    }
    var rows := PrepareRows(command, accepted, head, content, committedAt);
    FirstsCovered(ids, existing, rows.receipts);
    var acks := Acknowledge(firsts, existing, rows.receipts);
    r := Ok(rows.(result := rows.result.(acknowledgements := acks)));
  }

  method PrepareRows(command: BatchRecord, accepted: seq<Identity>, head: Head, content: Text, committedAt: int)
    returns (rows: PreparedBatch)
    ensures rows == Rows(command, accepted, head, content, committedAt)
  {
    var headSeq := head.version.eventSeq;
    var deduplicated := |command.events| - |accepted|;
    if accepted == [] {
      return PreparedBatch(BatchResult(head.branch, None, content, [], deduplicated, headSeq + 1, []), head.version,
                           [], None);
    }
    var snapshotId, terminal := head.version.snapshotId + 1, headSeq + |accepted|;
    var events := Placed(accepted, headSeq, snapshotId);
    var next := FoldEvents(content, events);
    var version := Version(snapshotId, terminal, HashSource(next));
    var receipts := ReceiptsFor(command, accepted, headSeq, version);
    var branch := head.branch.(headSnapshotId := snapshotId, headEventSeq := terminal, updatedAt := committedAt);
    var snapshot := Snapshot(command.target, snapshotId, Some(head.version.snapshotId), snapshotId, EventIds(events),
                             true,
                             Some(headSeq + 1), Some(terminal), |next|, HashSource(next), committedAt);
    rows := PreparedBatch(
      BatchResult(branch, Some(snapshot), next, events, deduplicated, terminal + 1, []), version, receipts,
      Some(BatchRow(BatchRowId(command.target, snapshotId), command.target, command.placement, version,
                    head.version.snapshotId, EventIds(events), receipts, deduplicated, terminal + 1)));
  }
}
