/** The single-event path: BranchAppendCommand of shared/drop/branch-state.ts and
    prepareBranchCommit of shared/drop/branch-commit.ts. */
module BranchCommit {
  import opened Wrappers
  import opened JsText
  import opened BranchState
  import TextDiff

  datatype AppendRecord = AppendRecord(target: Target, placement: Placement, expected: Version, event: Event,
                                       payloadHash: Digest)

  datatype PreparedCommit = PreparedCommit(
    branch: Branch, snapshot: Snapshot, event: Event, content: Text, receipt: Receipt, outbox: OutboxRow)

  /** fromRecord: the event must be decodable, be for this root, name its predecessor and carry its own hash;
      server-assigned fields are dropped. */
  function FromRecord(input: AppendRecord): (r: Result<AppendRecord>)
    ensures r.Ok? <==>
              && (forall op :: op in input.event.ops ==> Decodable(op)) && input.event.dropId == input.target.rootDropId
              && FollowsSeq(input.event) == Some(input.expected.eventSeq)
              && input.payloadHash == PayloadHash(input.event)
    ensures r.Err? ==> r.code == InvalidCommand
    ensures r.Ok? ==> r.value == input.(event := Unassigned(input.event))
    ensures r.Ok? ==> r.value.payloadHash == PayloadHash(r.value.event) == PayloadHash(input.event)
    ensures r.Ok? ==> FollowsSeq(r.value.event) == Some(r.value.expected.eventSeq)
  {
    var event := Unassigned(input.event);
    if exists op :: op in event.ops && !Decodable(op) then Err(InvalidCommand)
    else if event.dropId != input.target.rootDropId
            || FollowsSeq(event) != Some(input.expected.eventSeq) then Err(InvalidCommand)
    else if input.payloadHash != PayloadHash(event) then Err(InvalidCommand)
    else Ok(input.(event := event))
  }

  function CommitError(command: AppendRecord, head: Head, content: Text, committedAt: int): Option<Code> {
    if command.target != head.target || !HeadCoherent(head) then Some(StateCorrupt)
    else if command.placement.routingVersion != head.placement.routingVersion then Some(RoutingVersionUnsupported)
    else if command.placement.generation != head.placement.generation then Some(RoutingGenerationMismatch)
    else if command.expected != head.version then Some(DiffPredecessorMismatch)
    else if HashSource(content) != head.version.sourceContentHash then Some(StateCorrupt)
    else if !IsSafe(committedAt) || committedAt < 0 then Some(InvalidCommand)
    else if !IsSafe(head.version.snapshotId + 1) || !IsSafe(head.version.eventSeq + 2) then Some(DiffSequenceExhausted)
    else None
  }

  /** The rows one accepted append publishes, all from the captured head. */
  function PrepareCommit(command: AppendRecord, head: Head, content: Text,
                         committedAt: int): (r: Result<PreparedCommit>)
    ensures r.Ok? <==> CommitError(command, head, content, committedAt).None?
  {
    var error := CommitError(command, head, content, committedAt);
    if error.Some? then Err(error.value)
    else
      var snapshotId, n := head.version.snapshotId + 1, head.version.eventSeq + 1;
      var next := ApplyOps(content, command.event.ops);
      var event := command.event.(seq_ := n, snapshotId := Some(snapshotId));
      var version := Version(snapshotId, n, HashSource(next));
      var receipt := Receipt(command.target, command.placement, event.eventId, command.payloadHash, None, version);
      Ok(PreparedCommit(
        head.branch.(headSnapshotId := snapshotId, headEventSeq := n, updatedAt := committedAt),
        Snapshot(command.target, snapshotId, Some(head.version.snapshotId), snapshotId, [event.eventId], true,
                 Some(n), Some(n), |next|, HashSource(next), committedAt),
        event, next, receipt,
        CommitRow(CommitRowId(command.target, event.eventId), receipt)))
  }

  /** The loop over the operations of one event. */
  method FoldOps(content: Text, ops: seq<WireOp>) returns (next: Text)
    ensures next == ApplyOps(content, ops)
  {
    next := content;
    for i := 0 to |ops|
      invariant next == ApplyOps(content, ops[..i])
    {
      assert ops[..i + 1][..i] == ops[..i];
      var diff := ToDiff(ops[i]);
      if diff.op == TextDiff.INSERT || diff.op == TextDiff.DELETE {
        next := TextDiff.ApplyDiff(next, diff);
      }
    }
    assert ops[..|ops|] == ops;
  }

  /** prepareBranchCommit */
  method PrepareBranchCommit(command: AppendRecord, head: Head, content: Text, committedAt: int)
    returns (r: Result<PreparedCommit>)
    ensures r == PrepareCommit(command, head, content, committedAt)
  {
    var error := CommitError(command, head, content, committedAt);
    if error.Some? { return Err(error.value); }
    var snapshotId, n := head.version.snapshotId + 1, head.version.eventSeq + 1;
    var next := FoldOps(content, command.event.ops);
    var hash := HashSource(next);
    var event := command.event.(seq_ := n, snapshotId := Some(snapshotId));
    var receipt := Receipt(command.target, command.placement, event.eventId, command.payloadHash, None,
                           Version(snapshotId, n, hash));
    var branch := head.branch.(headSnapshotId := snapshotId, headEventSeq := n, updatedAt := committedAt);
    var snapshot := Snapshot(command.target, snapshotId, Some(head.version.snapshotId), snapshotId, [event.eventId],
                             true, Some(n), Some(n), |next|, hash, committedAt);
    r := Ok(PreparedCommit(branch, snapshot, event, next, receipt,
                           CommitRow(CommitRowId(command.target, event.eventId), receipt)));
  }
}
