/** Edit scripts on the wire (shared/drop/codecs/diff-v1.ts): what text an operation record gives,
    and that committing the records of a differ's script commits the edited text. */
module WireScript {
  import opened Wrappers
  import opened JsText
  import opened TextDiff
  import LcsDiff
  import opened BranchState
  import opened BranchCommit
  import opened BranchBatch
  import opened Timeline
  import opened Submission
  import opened BatchFusion

  // One record ---------------------------------------------------------------------------------------

  /** diffToDropDiffOpV1: the legacy form is filled in beside the native one. */
  function OpOf(d: Diff): WireOp {
    var range := if d.range.Some? then d.range.value else Range(0, 0);
    WireOp(Some(d.op != DELETE), Some(range.start), Some(range.end), Some(Decode(d.data)),
           Some(NativeOp(d.op, d.data, Some(range))))
  }

  /** The position of a text that is nearest to `x`. */
  ghost predicate Nearest(p: int, x: int, length: nat) {
    0 <= p <= length && (0 <= x <= length ==> p == x) && (x < 0 ==> p == 0) && (x > length ==> p == length)
  }

  /** A legacy record inserts or deletes where it says; out of range, at the nearest position, and
      a range that ends before it starts is empty. Its text passes through UTF-8. */
  lemma LegacyRecord(t: Text, op: WireOp, s: int, e: int)
    requires Decodable(op) && op.native.None?
    requires Nearest(s, op.start.value, |t|) && Nearest(e, op.end.value, |t|)
    ensures op.insert.value ==> ApplyOp(t, op) == t[..s] + Recode(op.text.value) + t[s..]
    ensures !op.insert.value ==> ApplyOp(t, op) == (if s <= e then t[..s] + t[e..] else t)
  {
    if s > e { assert t == t[..s] + t[s..]; }
  }

  /** A native record decides alone; without a range it is at the start, and a retained span
      changes nothing. */
  lemma NativeRecord(t: Text, op: WireOp, s: int, e: int)
    requires op.native.Some?
    requires var r := op.native.value.range;
             && Nearest(s, if r.Some? then r.value.start else 0, |t|)
             && Nearest(e, if r.Some? then r.value.end else 0, |t|)
    ensures op.native.value.op == INSERT ==> ApplyOp(t, op) == t[..s] + Decode(op.native.value.data) + t[s..]
    ensures op.native.value.op == DELETE ==> ApplyOp(t, op) == (if s <= e then t[..s] + t[e..] else t)
    ensures op.native.value.op == RETAIN ==> ApplyOp(t, op) == t
  {
    if s > e { assert t == t[..s] + t[s..]; }
  }

  // Scripts ------------------------------------------------------------------------------------------

  function OpsOf(script: seq<Diff>): (ops: seq<WireOp>)
    ensures |ops| == |script|
  {
    seq(|script|, i requires 0 <= i < |script| => OpOf(script[i]))
  }

  /** Applying the records of a script is applying the script, in its order. */
  lemma {:induction false} RecordsReplay(t: Text, script: seq<Diff>)
    ensures ApplyOps(t, OpsOf(script)) == ApplyAll(t, script)
    decreases |script|
  {
    hide ApplyDiff, ApplyOp, OpOf;
    if script != [] {
      var front, last := script[..|script| - 1], script[|script| - 1];
      RecordsReplay(t, front);
      AppendDiffs(t, front, [last]);
      assert front + [last] == script && OpsOf(script)[..|script| - 1] == OpsOf(front);
      assert ApplyAll(ApplyAll(t, front), [last]) == ApplyDiff(ApplyAll(t, front), last) by {
        assert [last][1..] == [];
      }
      RecordApplies(ApplyAll(t, front), last);
    }
  }

  lemma RecordApplies(t: Text, d: Diff)
    ensures ApplyOp(t, OpOf(d)) == ApplyDiff(t, d)
  {
  }

  /** The operations of an event are the records of either differ's script from one text to the
      next; `maxCells` is absent for the prefix-suffix differ. */
  ghost function EditOps(previous: Text, next: Text, maxCells: Option<nat>): seq<WireOp> {
    OpsOf(if maxCells.None? then SpanScript(previous, next) else LcsDiff.LcsScript(previous, next, maxCells.value))
  }

  /** What the differ inserts survives UTF-8. */
  ghost predicate EditSurvives(previous: Text, next: Text, maxCells: Option<nat>) {
    if maxCells.None? then Survives(ChangeOf(previous, next).added)
    else LcsDiff.LcsReplays(previous, next, maxCells.value)
  }

  lemma EditReplays(previous: Text, next: Text, maxCells: Option<nat>)
    ensures ApplyOps(previous, EditOps(previous, next, maxCells)) == next <==> EditSurvives(previous, next, maxCells)
  {
    hide OpsOf, SpanScript, LcsDiff.LcsScript, LcsDiff.LcsReplays, Survives;
    if maxCells.None? {
      RecordsReplay(previous, SpanScript(previous, next));
      SpanScriptReplays(previous, next);
    } else {
      RecordsReplay(previous, LcsDiff.LcsScript(previous, next, maxCells.value));
      LcsDiff.LcsScriptReplays(previous, next, maxCells.value);
    }
  }

  // Commits ------------------------------------------------------------------------------------------

  /** A commit of an edit stores the edited text, with its hash and its length, exactly when what
      the differ inserts survives UTF-8. */
  lemma CommittedEdit(c: AppendRecord, head: Head, content: Text, next: Text, maxCells: Option<nat>, now: int)
    requires PrepareCommit(c, head, content, now).Ok? && c.event.ops == EditOps(content, next, maxCells)
    ensures var p := PrepareCommit(c, head, content, now).value;
            && (p.content == next <==> EditSurvives(content, next, maxCells))
            && (p.content == next ==>
                  p.receipt.version.sourceContentHash == HashSource(next) && p.snapshot.textLength == |next|)
            && p.snapshot.createdAt == p.branch.updatedAt == now
  {
    hide EditOps, EditSurvives, HashSource, HeadCoherent, CommitRowId;
    EditReplays(content, next, maxCells);
  }

  /** Each event of the envelope is the edit from one text of a session to the next. */
  ghost predicate Session(texts: seq<Text>, events: seq<Event>, maxCells: Option<nat>) {
    && |texts| == |events| + 1
    && forall i :: 0 <= i < |events| ==> events[i].ops == EditOps(texts[i], texts[i + 1], maxCells)
  }

  lemma {:induction false} SessionReplays(texts: seq<Text>, events: seq<Event>, maxCells: Option<nat>)
    requires Session(texts, events, maxCells)
    requires forall i :: 0 <= i < |events| ==> EditSurvives(texts[i], texts[i + 1], maxCells)
    ensures ApplyEvents(texts[0], events) == texts[|events|]
    decreases |events|
  {
    hide EditOps, EditSurvives;
    if events != [] {
      var n := |events| - 1;
      SessionReplays(texts[..n + 1], events[..n], maxCells);
      EditReplays(texts[n], texts[n + 1], maxCells);
    }
  }

  /** The envelope's events are all new and all different. */
  ghost predicate AllNew(d: Doc, events: seq<Event>) {
    && (forall i :: 0 <= i < |events| ==> events[i].eventId !in d.receipts)
    && (forall i, j :: 0 <= i < j < |events| ==> events[i].eventId != events[j].eventId)
  }

  lemma {:induction false} AllFresh(ids: seq<Identity>, existing: map<Text, Receipt>, n: nat)
    requires n <= |ids| && Distinct(ids) && forall i :: 0 <= i < |ids| ==> ids[i].event.eventId !in existing
    ensures Fresh(ids, existing, n) == ids[..n]
  {
    if n > 0 {
      AllFresh(ids, existing, n - 1);
      assert First(ids, n - 1);
      assert ids[..n] == ids[..n - 1] + [ids[n - 1]];
    }
  }

  /** What a batch of new events makes of the text: all of them applied in order. */
  lemma NewContent(d: Doc, c: BatchRecord, now: int)
    requires Held(d) && BatchAt(d, c, now).Ok? && AllNew(d, c.events) && c.events != []
    ensures var p := BatchAt(d, c, now).value;
            && p.result.content == ApplyEvents(HeadContent(d), c.events)
            && p.version.sourceContentHash == HashSource(p.result.content)
            && p.result.snapshot.Some? && p.result.snapshot.value.createdAt == p.result.branch.updatedAt == now
            && p.result.snapshot.value.textLength == |p.result.content|
  {
    hide HeadError, Reused, PredecessorsMatch, HashSource, PayloadHash, ApplyEvents, EventIds, BatchRowId, Acks,
         Firsts, Fresh, ReceiptsFor;
    var ids := HashEvents(c.events);
    AllFresh(ids, d.receipts, |ids|);
    assert ids[..|ids|] == ids;
    OpsOnly(HeadContent(d), Placed(ids, d.head.version.eventSeq, d.head.version.snapshotId + 1), c.events);
  }

  /** An editing session sent as one envelope: if every edit survives UTF-8 the branch holds the
      last text; an envelope of one edit holds it only then. */
  lemma BatchedSession(d: Doc, c: BatchRecord, texts: seq<Text>, maxCells: Option<nat>, now: int)
    requires Held(d) && BatchAt(d, c, now).Ok? && AllNew(d, c.events) && c.events != []
    requires Session(texts, c.events, maxCells) && texts[0] == HeadContent(d)
    ensures var p, last := BatchAt(d, c, now).value, texts[|c.events|];
            && ((forall i :: 0 <= i < |c.events| ==> EditSurvives(texts[i], texts[i + 1], maxCells)) ==>
                  p.result.content == last && p.version.sourceContentHash == HashSource(last))
            && p.result.snapshot.Some? && p.result.snapshot.value.createdAt == p.result.branch.updatedAt == now
            && (|c.events| == 1 ==> (p.result.content == last <==> EditSurvives(texts[0], last, maxCells)))
  {
    hide BatchAt, AllNew, EditOps, EditSurvives, HashSource, ApplyOps;
    NewContent(d, c, now);
    if forall i :: 0 <= i < |c.events| ==> EditSurvives(texts[i], texts[i + 1], maxCells) {
      SessionReplays(texts, c.events, maxCells);
    }
    if |c.events| == 1 {
      OneEvent(texts[0], c.events[0]);
      assert c.events == [c.events[0]];
      EditReplays(texts[0], texts[1], maxCells);
    }
  }
}
