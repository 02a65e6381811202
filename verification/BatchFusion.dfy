/** One envelope and the same events submitted one at a time come to the same document. */
module BatchFusion {
  import opened Wrappers
  import opened JsText
  import opened BranchState
  import opened BranchBatch
  import opened Timeline
  import opened Submission

  /** appendBatch on a document nobody else writes. */
  ghost function SubmitBatch(d: Doc, command: BatchRecord, committedAt: int): (r: Result<Doc>) {
    if !Held(d) then Err(StateCorrupt)
    else
      var p := BatchAt(d, command, committedAt);
      if p.Err? then Err(p.code)
      else if p.value.result.snapshot.None? || p.value.outbox.None? then Ok(d)
      else Ok(Publish(d, OfBatch(p.value)))
  }

  lemma SubmitKeeps(d: Doc, command: BatchRecord, committedAt: int)
    requires Inv(d) && SubmitBatch(d, command, committedAt).Ok?
    ensures Inv(SubmitBatch(d, command, committedAt).value)
  {
    hide Inv, BatchAt, Publish, Fits;
    InvHeld(d);
    var p := BatchAt(d, command, committedAt);
    if p.value.result.snapshot.Some? {
      BatchFits(d, command, committedAt);
      PublishKeeps(d, OfBatch(p.value));
    }
  }

  /** An acknowledgement says where `r` stores the event. */
  ghost predicate NamesPlace(r: Doc, a: Ack) {
    && 0 <= a.seq_ <= r.head.version.eventSeq && a.seq_ in r.events
    && r.events[a.seq_].eventId == a.eventId && r.events[a.seq_].snapshotId == Some(a.snapshotId)
  }

  /** Every acknowledgement of a batch, of an accepted event or of a duplicate, names the sequence
      and the snapshot at which the resulting document stores that event. */
  lemma AcksNamePlaces(d: Doc, command: BatchRecord, committedAt: int)
    requires Inv(d) && SubmitBatch(d, command, committedAt).Ok?
    ensures Held(d) && BatchAt(d, command, committedAt).Ok?
    ensures forall a :: a in BatchAt(d, command, committedAt).value.result.acknowledgements ==>
              && NamesPlace(SubmitBatch(d, command, committedAt).value, a)
              && (a.status == Accepted <==> a.eventId !in d.receipts)
  {
    hide Inv, BatchAt, Publish, NamesPlace;
    InvHeld(d);
    var p, r := BatchAt(d, command, committedAt).value, SubmitBatch(d, command, committedAt).value;
    SubmitKeeps(d, command, committedAt);
    BatchAcks(d, command, committedAt);
    ReceiptsAfter(d, command, committedAt);
    var ids := HashEvents(command.events);
    var firsts := Firsts(ids, |ids|);
    forall i | 0 <= i < |p.result.acknowledgements|
      ensures var a := p.result.acknowledgements[i];
              NamesPlace(r, a) && (a.status == Accepted <==> a.eventId !in d.receipts)
    {
      AckPlace(d, r, firsts[i].event.eventId, ById(p.receipts));
    }
  }

  lemma BatchAcks(d: Doc, command: BatchRecord, committedAt: int)
    requires Held(d) && BatchAt(d, command, committedAt).Ok?
    ensures var ids, p := HashEvents(command.events), BatchAt(d, command, committedAt).value;
            && Covered(Firsts(ids, |ids|), d.receipts, ById(p.receipts))
            && p.result.acknowledgements == Acks(Firsts(ids, |ids|), d.receipts, ById(p.receipts))
  {
    hide HeadError, Reused, PredecessorsMatch, HashSource, PayloadHash, ApplyEvents, Placed, EventIds, BatchRowId;
    var ids := HashEvents(command.events);
    var rows := Rows(command, Fresh(ids, d.receipts, |ids|), d.head, HeadContent(d), committedAt);
    FirstsCovered(ids, d.receipts, rows.receipts);
  }

  /** The resulting document holds the old receipts and the new ones. */
  lemma ReceiptsAfter(d: Doc, command: BatchRecord, committedAt: int)
    requires Inv(d) && SubmitBatch(d, command, committedAt).Ok? && Held(d) && BatchAt(d, command, committedAt).Ok?
    ensures var added := ById(BatchAt(d, command, committedAt).value.receipts);
            var r := SubmitBatch(d, command, committedAt).value.receipts;
            && (forall id :: id in d.receipts ==> id in r && r[id] == d.receipts[id])
            && (forall id :: id in added && id !in d.receipts ==> id in r && r[id] == added[id])
  {
    hide Inv, BatchAt, Publish, Fits;
    var p := BatchAt(d, command, committedAt).value;
    ByIdHas(p.receipts);
    NoRowsNoReceipts(d, command, committedAt);
    if p.result.snapshot.Some? {
      BatchFits(d, command, committedAt);
      FitsReceipts(d, OfBatch(p));
    }
  }

  lemma NoRowsNoReceipts(d: Doc, command: BatchRecord, committedAt: int)
    requires Held(d) && BatchAt(d, command, committedAt).Ok?
    ensures var p := BatchAt(d, command, committedAt).value;
            p.result.snapshot.Some? == p.outbox.Some? && (p.result.snapshot.None? ==> p.receipts == [])
  {
    hide HeadError, Reused, PredecessorsMatch, HashSource, PayloadHash, ApplyEvents, Placed, EventIds, BatchRowId,
         Acks, Firsts, Fresh;
  }

  lemma FitsReceipts(d: Doc, p: Publication)
    requires Inv(d) && Fits(d, p)
    ensures var r := Publish(d, p).receipts;
            && (forall id :: id in d.receipts ==> id in r && r[id] == d.receipts[id])
            && (forall q :: q in p.receipts ==> q.eventId in r && r[q.eventId] == q)
  {
    hide Inv, Publish;
    NewReceipts(d, p);
  }

  lemma AckPlace(d: Doc, r: Doc, id: Text, added: map<Text, Receipt>)
    requires Inv(r) && (id in d.receipts || id in added)
    requires id in d.receipts ==> id in r.receipts && r.receipts[id] == d.receipts[id]
    requires id in added && id !in d.receipts ==> id in r.receipts && r.receipts[id] == added[id]
    ensures var a := AckFor(id, d.receipts, added);
            NamesPlace(r, a) && (a.status == Accepted <==> a.eventId !in d.receipts)
  {
    hide Inv;
    InvHeld(r);
    ExtendsRefl(r);
    StoredAck(r, r, id);
  }

  lemma ExtendsRefl(r: Doc)
    requires Gapless(r) && HeadOk(r.head)
    ensures Extends(r, r)
  {
  }

  function One(command: BatchRecord, i: nat): BatchRecord
    requires i < |command.events|
  {
    command.(events := [command.events[i]])
  }

  /** The first n events of the envelope, each in an envelope of its own, with a clock reading for
      each submission. */
  ghost function SubmitEach(d: Doc, command: BatchRecord, n: nat, clocks: seq<int>): (r: Result<Doc>)
    requires n <= |command.events| == |clocks|
  {
    if n == 0 then Ok(d)
    else
      var before := SubmitEach(d, command, n - 1, clocks);
      if before.Err? then before else SubmitBatch(before.value, One(command, n - 1), clocks[n - 1])
  }

  predicate ValidTime(t: int) { IsSafe(t) && 0 <= t }

  /** All readings are valid times, or none is. */
  ghost predicate SameClock(clocks: seq<int>, committedAt: int) {
    forall k :: 0 <= k < |clocks| ==> ValidTime(clocks[k]) == ValidTime(committedAt)
  }

  lemma {:induction false} EachKeeps(d: Doc, command: BatchRecord, n: nat, clocks: seq<int>)
    requires n <= |command.events| == |clocks| && Inv(d) && SubmitEach(d, command, n, clocks).Ok?
    ensures Inv(SubmitEach(d, command, n, clocks).value)
  {
    hide Inv, SubmitBatch;
    if n > 0 {
      EachKeeps(d, command, n - 1, clocks);
      SubmitKeeps(SubmitEach(d, command, n - 1, clocks).value, One(command, n - 1), clocks[n - 1]);
    }
  }

  /** The same events in the same places, snapshot ids aside. */
  ghost predicate SameEvents(r: Doc, g: Doc) {
    && Gapless(r) && Gapless(g)
    && r.head.version.eventSeq == g.head.version.eventSeq
    && (forall i :: 0 <= i <= r.head.version.eventSeq ==>
          r.events[i].(snapshotId := None) == g.events[i].(snapshotId := None))
  }

  /** The receipts of the same id name the same event in both documents. */
  lemma SameReceipt(r: Doc, g: Doc, id: Text)
    requires Inv(r) && Inv(g) && SameEvents(r, g)
    ensures id in r.receipts <==> id in g.receipts
    ensures id in r.receipts ==>
              SeqOf(r.receipts[id]) == SeqOf(g.receipts[id]) && r.receipts[id].payloadHash == g.receipts[id].payloadHash
  {
    if id in r.receipts { KnownEvent(r, g, SeqOf(r.receipts[id])); }
    if id in g.receipts { KnownEvent(r, g, SeqOf(g.receipts[id])); }
  }

  lemma KnownEvent(r: Doc, g: Doc, i: int)
    requires Gapless(r) && Gapless(g) && SameEvents(r, g)
    requires 0 <= i <= r.head.version.eventSeq && ReceiptsOk(r) && ReceiptsOk(g)
    ensures var id := r.events[i].eventId;
            && id == g.events[i].eventId && id in r.receipts && id in g.receipts
            && SeqOf(r.receipts[id]) == SeqOf(g.receipts[id]) == i
            && r.receipts[id].payloadHash == g.receipts[id].payloadHash
  {
    assert ReceiptOk(r, i) && ReceiptOk(g, i);
    var e, f := r.events[i], g.events[i];
    assert e.(snapshotId := None) == f.(snapshotId := None);
    assert e.eventId == e.(snapshotId := None).eventId && PayloadHash(e) == PayloadHash(e.(snapshotId := None));
    assert f.eventId == f.(snapshotId := None).eventId && PayloadHash(f) == PayloadHash(f.(snapshotId := None));
  }

  // The document after n of the events -------------------------------------------------------

  ghost function Raw(accepted: seq<Identity>): (es: seq<Event>)
    ensures |es| == |accepted|
  {
    seq(|accepted|, i requires 0 <= i < |accepted| => accepted[i].event)
  }

  /** Only the operations of an event reach the text. */
  lemma {:induction false} OpsOnly(content: Text, a: seq<Event>, b: seq<Event>)
    requires |a| == |b| && forall i :: 0 <= i < |a| ==> a[i].ops == b[i].ops
    ensures ApplyEvents(content, a) == ApplyEvents(content, b)
    decreases |a|
  {
    if a != [] { OpsOnly(content, a[..|a| - 1], b[..|b| - 1]); }
  }

  ghost predicate EventsAdded(d: Doc, g: Doc, added: seq<Identity>) {
    var n := d.head.version.eventSeq;
    && -1 <= n && g.head.version.eventSeq == n + |added|
    && (forall i :: 0 <= i <= n ==> i in g.events && i in d.events && g.events[i] == d.events[i])
    && (forall i :: n < i <= n + |added| ==>
          i in g.events && g.events[i].(snapshotId := None) == added[i - n - 1].event.(seq_ := i, snapshotId := None))
  }

  /** `g` is `d` after the first n events, read off the classification of the whole envelope. */
  ghost predicate Reached(d: Doc, g: Doc, ids: seq<Identity>, n: nat)
    requires n <= |ids|
  {
    var added := Fresh(ids, d.receipts, n);
    && Held(d) && Held(g) && g.head.target == d.head.target && g.head.placement == d.head.placement
    && EventsAdded(d, g, added)
    && HeadContent(g) == ApplyEvents(HeadContent(d), Raw(added))
    && ReceiptsReached(d.receipts, g.receipts, ids, n)
  }

  ghost predicate ReceiptsReached(before: map<Text, Receipt>, after: map<Text, Receipt>, ids: seq<Identity>, n: nat)
    requires n <= |ids|
  {
    && (forall id :: id in before ==> id in after && after[id] == before[id])
    && (forall k :: 0 <= k < n ==>
          ids[k].event.eventId in after && after[ids[k].event.eventId].payloadHash == ids[k].payloadHash)
    && (forall id :: id in after ==> id in before || exists k :: 0 <= k < n && ids[k].event.eventId == id)
  }

  /** What the first n identities must satisfy, of the checks that look at them. */
  ghost predicate PrefixOk(d: Doc, ids: seq<Identity>, n: nat)
    requires n <= |ids|
  {
    var added := Fresh(ids, d.receipts, n);
    && !Reused(ids[..n], d.receipts)
    && PredecessorsMatch(added, d.head.version.eventSeq)
    && (added != [] ==> d.head.version.eventSeq + |added| + 1 <= MAX_SAFE)
  }

  lemma ReusedGrows(ids: seq<Identity>, existing: map<Text, Receipt>, n: nat)
    requires n < |ids|
    ensures Reused(ids[..n], existing) ==> Reused(ids[..n + 1], existing)
  {
    var a, b := ids[..n], ids[..n + 1];
    assert forall i :: 0 <= i < n ==> a[i] == b[i];
  }

  /** Given the receipts after n events, the next one conflicts exactly when its id is taken
      with another payload; and it is new exactly when its id is not taken. */
  lemma NextIdentity(before: map<Text, Receipt>, after: map<Text, Receipt>, ids: seq<Identity>, n: nat)
    requires n < |ids| && !Reused(ids[..n], before) && ReceiptsReached(before, after, ids, n)
    ensures var x := ids[n];
            && (Reused(ids[..n + 1], before) <==>
                  x.event.eventId in after && after[x.event.eventId].payloadHash != x.payloadHash)
            && (First(ids, n) && x.event.eventId !in before <==> x.event.eventId !in after)
  {
    var x, a, b := ids[n], ids[..n], ids[..n + 1];
    var id := x.event.eventId;
    assert b[n] == x && forall i :: 0 <= i < n ==> a[i] == ids[i] == b[i];
    if id in after {
      if id in before {
        assert after[id] == before[id];
      } else {
        var k :| 0 <= k < n && ids[k].event.eventId == id;
        assert b[k].event.eventId == b[n].event.eventId;
      }
    }
    if id !in after || after[id].payloadHash == x.payloadHash { NoNewConflict(before, after, ids, n); }
  }

  lemma NoNewConflict(before: map<Text, Receipt>, after: map<Text, Receipt>, ids: seq<Identity>, n: nat)
    requires n < |ids| && !Reused(ids[..n], before) && ReceiptsReached(before, after, ids, n)
    requires ids[n].event.eventId in after ==> after[ids[n].event.eventId].payloadHash == ids[n].payloadHash
    ensures !Reused(ids[..n + 1], before)
  {
    var a, b := ids[..n], ids[..n + 1];
    assert b[n] == ids[n] && forall i :: 0 <= i < n ==> a[i] == ids[i] == b[i];
    forall i | 0 <= i < |b| && b[i].event.eventId in before
      ensures before[b[i].event.eventId].payloadHash == b[i].payloadHash
    {
      if i < n { assert a[i] == b[i]; }
    }
    forall i, j | 0 <= i < j < |b| && b[i].event.eventId == b[j].event.eventId
      ensures b[i].payloadHash == b[j].payloadHash {
      if j < n { assert a[i].event.eventId == a[j].event.eventId; }
    }
  }

  lemma PrefixShrinks(d: Doc, ids: seq<Identity>, n: nat)
    requires n < |ids| && PrefixOk(d, ids, n + 1)
    ensures PrefixOk(d, ids, n)
  {
    ReusedGrows(ids, d.receipts, n);
    var a, b := Fresh(ids, d.receipts, n), Fresh(ids, d.receipts, n + 1);
    assert forall i :: 0 <= i < |a| ==> a[i] == b[i];
  }

  // One event ---------------------------------------------------------------------------------

  /** All that matters of a head for the early checks is where it is, and of a time that it is one. */
  lemma SameHeadError(d: Doc, g: Doc, command: BatchRecord, one: BatchRecord, t: int, u: int)
    requires ValidTime(t) == ValidTime(u)
    requires HeadOk(d.head) && HeadOk(g.head) && g.head.target == d.head.target && g.head.placement == d.head.placement
    requires one.target == command.target && one.placement == command.placement
    ensures HeadError(one, g.head, u) == HeadError(command, d.head, t)
  {
  }

  /** The event names no predecessor, or this one. */
  ghost predicate MayFollow(e: Event, n: int) { FollowsSeq(e).Some? ==> FollowsSeq(e).value == n }

  lemma OneIdentity(e: Event, existing: map<Text, Receipt>)
    ensures var ids := HashEvents([e]);
            && ids == [Identity(e, PayloadHash(e))]
            && Fresh(ids, existing, 1) == (if e.eventId in existing then [] else ids)
            && (Reused(ids, existing) <==> e.eventId in existing && existing[e.eventId].payloadHash != PayloadHash(e))
  {
    hide PayloadHash;
    var ids := HashEvents([e]);
    assert ids == [Identity(e, PayloadHash(e))];
    assert First(ids, 0);
    assert Fresh(ids, existing, 0) == [];
  }

  /** Preparing a single event: refused, already there, or new at the end. */
  lemma PrepareOne(command: BatchRecord, e: Event, head: Head, content: Text, existing: map<Text, Receipt>,
                   committedAt: int)
    requires command.events == [e] && HeadError(command, head, committedAt).None? && HeadOk(head)
    requires HashSource(content) == head.version.sourceContentHash
    ensures var ids := HashEvents(command.events);
            var r := PrepareBatch(command, ids, head, content, existing, committedAt);
            if e.eventId in existing then
              (r.Ok? <==> existing[e.eventId].payloadHash == PayloadHash(e))
              && (r.Ok? ==> r.value.result.snapshot.None?)
            else
              && (r.Ok? <==> MayFollow(e, head.version.eventSeq) && head.version.eventSeq + 2 <= MAX_SAFE)
              && (r.Ok? ==>
                    && Rows(command, ids, head, content, committedAt)
                       == r.value.(result := r.value.result.(acknowledgements := []))
                    && r.value.result.snapshot.Some?)
  {
    hide PayloadHash, HashSource, Acks, Firsts, Fresh, Reused, Placed, ReceiptsFor, ApplyEvents, EventIds, BatchRowId,
         HeadError;
    OneIdentity(e, existing);
    var x := Identity(e, PayloadHash(e));
    assert [x][0] == x;
    assert PredecessorsMatch([x], head.version.eventSeq) <==> MayFollow(e, head.version.eventSeq);
    assert PredecessorsMatch([], head.version.eventSeq);
  }

  lemma SubmitOne(g: Doc, command: BatchRecord, e: Event, committedAt: int)
    requires Inv(g) && command.events == [e] && HeadError(command, g.head, committedAt).None?
    ensures var r := SubmitBatch(g, command, committedAt);
            if e.eventId in g.receipts then
              (r.Ok? <==> g.receipts[e.eventId].payloadHash == PayloadHash(e)) && (r.Ok? ==> r.value == g)
            else
              && (r.Ok? <==> MayFollow(e, g.head.version.eventSeq) && g.head.version.eventSeq + 2 <= MAX_SAFE)
              && (r.Ok? ==>
                    var rows := Rows(command, HashEvents(command.events), g.head, HeadContent(g), committedAt);
                    r.value == Publish(g, OfBatch(rows)))
  {
    hide Inv, Publish, HeadError, HeadOk, PrepareBatch, Rows, Gapless, PayloadHash, HashSource, MayFollow;
    InvHeld(g);
    HeadContentHash(g);
    PrepareOne(command, e, g.head, HeadContent(g), g.receipts, committedAt);
  }

  /** Publishing one new event at the end of `g`. */
  lemma OneAdded(g: Doc, command: BatchRecord, x: Identity, committedAt: int)
    requires Inv(g) && command.target == g.head.target && command.placement == g.head.placement
    requires x.payloadHash == PayloadHash(x.event) && x.event.eventId !in g.receipts
             && g.head.version.eventSeq + 2 <= MAX_SAFE
    ensures var p := OfBatch(Rows(command, [x], g.head, HeadContent(g), committedAt)); var r := Publish(g, p);
            && Inv(r) && Adds(g, p, r)
            && HeadContent(r) == ApplyOps(HeadContent(g), x.event.ops)
            && |p.events| == 1 && |p.receipts| == 1
            && p.events[0] == x.event.(seq_ := g.head.version.eventSeq + 1,
                                       snapshotId := Some(g.head.version.snapshotId + 1))
            && p.receipts[0].eventId == x.event.eventId && p.receipts[0].payloadHash == x.payloadHash
  {
    hide Inv, Publish, Fits, Adds, Gapless, HeadOk, PayloadHash, ApplyEvents, ApplyOps, Rows, OfBatch;
    InvHeld(g);
    assert Distinct([x]);
    RowsFit(g, command, [x], committedAt);
    var p := OfBatch(Rows(command, [x], g.head, HeadContent(g), committedAt));
    PublishKeeps(g, p);
    OneRow(command, x, g.head, HeadContent(g), committedAt);
    FitsAdds(g, p);
  }

  /** The rows of one new event. */
  lemma OneRow(command: BatchRecord, x: Identity, head: Head, content: Text, committedAt: int)
    ensures var p := OfBatch(Rows(command, [x], head, content, committedAt));
            && |p.events| == 1 && |p.receipts| == 1 && p.content == ApplyOps(content, x.event.ops)
            && p.events[0] == x.event.(seq_ := head.version.eventSeq + 1,
                                       snapshotId := Some(head.version.snapshotId + 1))
            && p.receipts[0].eventId == x.event.eventId && p.receipts[0].payloadHash == x.payloadHash
  {
    hide ApplyOps, HashSource, BatchRowId, EventIds;
    var p := OfBatch(Rows(command, [x], head, content, committedAt));
    assert p.events == [p.events[0]];
    OneEvent(content, p.events[0]);
  }

  lemma FitsAdds(g: Doc, p: Publication)
    requires Inv(g) && Fits(g, p)
    ensures Adds(g, p, Publish(g, p)) && Publish(g, p).head.version.snapshotId in Publish(g, p).snapshots
    ensures HeadContent(Publish(g, p)) == p.content
  {
    PublishAdds(g, p);
  }

  // The induction -----------------------------------------------------------------------------

  lemma ReachedStart(d: Doc, ids: seq<Identity>)
    requires Held(d) && Gapless(d) && HeadOk(d.head)
    ensures Reached(d, d, ids, 0) && PrefixOk(d, ids, 0)
  {
    assert Raw([]) == [];
    assert ids[..0] == [];
  }

  /** An event whose id is taken leaves both sides where they were. */
  lemma ReachedAgain(d: Doc, g: Doc, ids: seq<Identity>, n: nat)
    requires n < |ids| && PrefixOk(d, ids, n) && Reached(d, g, ids, n)
    requires ids[n].event.eventId in g.receipts
    ensures PrefixOk(d, ids, n + 1) <==> g.receipts[ids[n].event.eventId].payloadHash == ids[n].payloadHash
    ensures PrefixOk(d, ids, n + 1) ==> Reached(d, g, ids, n + 1)
  {
    NextIdentity(d.receipts, g.receipts, ids, n);
    assert Fresh(ids, d.receipts, n + 1) == Fresh(ids, d.receipts, n);
  }

  /** An event whose id is free is next in the envelope's list of new events. */
  lemma ReachedMore(d: Doc, g: Doc, ids: seq<Identity>, n: nat)
    requires n < |ids| && PrefixOk(d, ids, n) && Reached(d, g, ids, n)
    requires ids[n].event.eventId !in g.receipts
    ensures Fresh(ids, d.receipts, n + 1) == Fresh(ids, d.receipts, n) + [ids[n]]
    ensures PrefixOk(d, ids, n + 1) <==>
              MayFollow(ids[n].event, g.head.version.eventSeq) && g.head.version.eventSeq + 2 <= MAX_SAFE
  {
    NextIdentity(d.receipts, g.receipts, ids, n);
    var a, b := Fresh(ids, d.receipts, n), Fresh(ids, d.receipts, n + 1);
    assert b == a + [ids[n]];
    assert b[|a|] == ids[n] && forall i :: 0 <= i < |a| ==> b[i] == a[i];
    assert PredecessorsMatch(b, d.head.version.eventSeq) <==> MayFollow(ids[n].event, d.head.version.eventSeq + |a|);
  }

  lemma ReachedAfter(d: Doc, g: Doc, ids: seq<Identity>, n: nat, p: Publication, r: Doc)
    requires Held(g) && Held(r) && n < |ids| && Reached(d, g, ids, n) && Adds(g, p, r)
    requires Fresh(ids, d.receipts, n + 1) == Fresh(ids, d.receipts, n) + [ids[n]]
    requires |p.events| == 1
    requires p.events[0].(snapshotId := None) == ids[n].event.(seq_ := g.head.version.eventSeq + 1, snapshotId := None)
    requires HeadContent(r) == ApplyOps(HeadContent(g), ids[n].event.ops)
    requires p.receipts[0].eventId == ids[n].event.eventId && p.receipts[0].payloadHash == ids[n].payloadHash
    requires ids[n].event.eventId !in g.receipts
    ensures Reached(d, r, ids, n + 1)
  {
    hide EventsAdded, ReceiptsReached, Gapless, ApplyOps;
    var a, b := Fresh(ids, d.receipts, n), Fresh(ids, d.receipts, n + 1);
    RawMore(HeadContent(d), a, ids[n]);
    EventsMore(d, g, r, a, ids[n], p);
    ReceiptsMore(d.receipts, g, r, ids, n, p);
  }

  lemma RawMore(content: Text, a: seq<Identity>, x: Identity)
    ensures ApplyEvents(content, Raw(a + [x])) == ApplyOps(ApplyEvents(content, Raw(a)), x.event.ops)
  {
    hide ApplyOps;
    var b := Raw(a + [x]);
    assert b[..|b| - 1] == Raw(a) && b[|b| - 1] == x.event;
  }

  lemma AddsEvents(d: Doc, p: Publication, r: Doc)
    requires Adds(d, p, r)
    ensures var n := d.head.version.eventSeq;
            && -1 <= n && r.head.version.eventSeq == n + |p.events|
            && (forall i :: 0 <= i <= n ==> i in d.events && i in r.events && r.events[i] == d.events[i])
            && (forall i :: n < i <= n + |p.events| ==> i in r.events && r.events[i] == p.events[i - n - 1])
  {
  }

  lemma EventsMore(d: Doc, g: Doc, r: Doc, added: seq<Identity>, x: Identity, p: Publication)
    requires Adds(g, p, r) && EventsAdded(d, g, added)
    requires |p.events| == 1
    requires p.events[0].(snapshotId := None) == x.event.(seq_ := g.head.version.eventSeq + 1, snapshotId := None)
    ensures EventsAdded(d, r, added + [x])
  {
    hide Adds;
    AddsEvents(g, p, r);
    var n, b := d.head.version.eventSeq, added + [x];
    forall i | n < i <= n + |b|
      ensures i in r.events && r.events[i].(snapshotId := None) == b[i - n - 1].event.(seq_ := i, snapshotId := None) {
      if i <= n + |added| { assert r.events[i] == g.events[i]; } else { assert r.events[i] == p.events[0]; }
    }
  }

  lemma ReceiptsMore(before: map<Text, Receipt>, g: Doc, r: Doc, ids: seq<Identity>, n: nat, p: Publication)
    requires n < |ids| && Adds(g, p, r) && |p.events| == 1 && ReceiptsReached(before, g.receipts, ids, n)
    requires p.receipts[0].eventId == ids[n].event.eventId && p.receipts[0].payloadHash == ids[n].payloadHash
    requires ids[n].event.eventId !in g.receipts
    ensures ReceiptsReached(before, r.receipts, ids, n + 1)
  {
    assert p.receipts[0].eventId in r.receipts;
    forall id | id in r.receipts ensures id in before || exists k :: 0 <= k < n + 1 && ids[k].event.eventId == id {
      if id in g.receipts {
        if id !in before { var k :| 0 <= k < n && ids[k].event.eventId == id; }
      } else {
        assert ids[n].event.eventId == id;
      }
    }
  }

  lemma {:induction false} EachReaches(d: Doc, command: BatchRecord, n: nat, clocks: seq<int>, committedAt: int)
    requires Inv(d) && n <= |command.events| == |clocks| && SameClock(clocks, committedAt)
    requires HeadError(command, d.head, committedAt).None?
    ensures var ids, r := HashEvents(command.events), SubmitEach(d, command, n, clocks);
            (r.Ok? <==> PrefixOk(d, ids, n)) && (r.Ok? ==> Reached(d, r.value, ids, n))
    decreases n
  {
    hide Inv, Reached, PrefixOk, HeadOk, Gapless, HeadError, SubmitBatch, PayloadHash, ValidTime;
    InvHeld(d);
    var ids := HashEvents(command.events);
    if n == 0 {
      ReachedStart(d, ids);
    } else {
      EachReaches(d, command, n - 1, clocks, committedAt);
      var before := SubmitEach(d, command, n - 1, clocks);
      if before.Err? {
        if PrefixOk(d, ids, n) { PrefixShrinks(d, ids, n - 1); }
      } else {
        EachKeeps(d, command, n - 1, clocks);
        EachStep(d, before.value, command, n - 1, committedAt, clocks[n - 1]);
      }
    }
  }

  lemma EachStep(d: Doc, g: Doc, command: BatchRecord, n: nat, committedAt: int, now: int)
    requires Inv(d) && Inv(g) && n < |command.events| && HeadError(command, d.head, committedAt).None?
    requires ValidTime(now) == ValidTime(committedAt)
    requires var ids := HashEvents(command.events); PrefixOk(d, ids, n) && Reached(d, g, ids, n)
    ensures var ids, r := HashEvents(command.events), SubmitBatch(g, One(command, n), now);
            (r.Ok? <==> PrefixOk(d, ids, n + 1)) && (r.Ok? ==> Reached(d, r.value, ids, n + 1))
  {
    hide Inv, Reached, PrefixOk, SubmitBatch, Publish, Rows, OfBatch, Gapless, HeadOk, Reused;
    InvHeld(g);
    var ids, one := HashEvents(command.events), One(command, n);
    StepHeadError(d, g, command, ids, n, committedAt, now);
    SubmitOne(g, one, command.events[n], now);
    if ids[n].event.eventId in g.receipts {
      ReachedAgain(d, g, ids, n);
    } else {
      ReachedMore(d, g, ids, n);
      if PrefixOk(d, ids, n + 1) { StepAdds(d, g, ids, n, one, now); }
    }
  }

  lemma StepHeadError(d: Doc, g: Doc, command: BatchRecord, ids: seq<Identity>, n: nat, t: int, u: int)
    requires Inv(d) && Inv(g) && n < |command.events| && n <= |ids| && Reached(d, g, ids, n)
             && ValidTime(t) == ValidTime(u)
    ensures HeadError(One(command, n), g.head, u) == HeadError(command, d.head, t)
  {
    hide Inv, HeadError, Gapless, EventsAdded, ReceiptsReached, ValidTime;
    InvHeld(d);
    InvHeld(g);
    SameHeadError(d, g, command, One(command, n), t, u);
  }

  lemma StepAdds(d: Doc, g: Doc, ids: seq<Identity>, n: nat, one: BatchRecord, committedAt: int)
    requires Inv(g) && Held(g) && n < |ids| && Reached(d, g, ids, n) && ids[n].event.eventId !in g.receipts
    requires Fresh(ids, d.receipts, n + 1) == Fresh(ids, d.receipts, n) + [ids[n]]
    requires one.target == g.head.target && one.placement == g.head.placement && one.events == [ids[n].event]
    requires ids[n].payloadHash == PayloadHash(ids[n].event) && g.head.version.eventSeq + 2 <= MAX_SAFE
    ensures Reached(d, Publish(g, OfBatch(Rows(one, HashEvents(one.events), g.head, HeadContent(g), committedAt))),
                    ids, n + 1)
  {
    hide Inv, Reached, Publish, Rows, Adds, HeadOk, Gapless, PayloadHash;
    OneIdentity(ids[n].event, map[]);
    OneAdded(g, one, ids[n], committedAt);
    var p := OfBatch(Rows(one, [ids[n]], g.head, HeadContent(g), committedAt));
    InvHeld(Publish(g, p));
    ReachedAfter(d, g, ids, n, p, Publish(g, p));
  }

  ghost predicate BatchReached(d: Doc, r: Doc, added: seq<Identity>) {
    Held(d) && Held(r) && EventsAdded(d, r, added) && HeadContent(r) == ApplyEvents(HeadContent(d), Raw(added))
  }

  /** The whole envelope at once. */
  lemma BatchReaches(d: Doc, command: BatchRecord, committedAt: int)
    requires Inv(d) && HeadError(command, d.head, committedAt).None?
    ensures var ids, r := HashEvents(command.events), SubmitBatch(d, command, committedAt);
            && (r.Ok? <==> PrefixOk(d, ids, |ids|))
            && (r.Ok? ==> BatchReached(d, r.value, Fresh(ids, d.receipts, |ids|)))
  {
    hide Inv, Gapless, HeadOk, HeadError, PrefixOk, PrepareBatch, Fits, Publish, BatchReached, HashSource, Placed;
    InvHeld(d);
    var ids := HashEvents(command.events);
    var accepted := Fresh(ids, d.receipts, |ids|);
    HeadContentHash(d);
    BatchOk(d, command, HeadContent(d), committedAt);
    if PrefixOk(d, ids, |ids|) {
      if accepted == [] {
        NothingReached(d);
      } else {
        BatchFits(d, command, committedAt);
        BatchAdded(d, OfBatch(BatchAt(d, command, committedAt).value), accepted);
      }
    }
  }

  lemma BatchOk(d: Doc, command: BatchRecord, content: Text, committedAt: int)
    requires HeadOk(d.head) && HeadError(command, d.head, committedAt).None?
    requires HashSource(content) == d.head.version.sourceContentHash
    ensures var ids := HashEvents(command.events);
            var r := PrepareBatch(command, ids, d.head, content, d.receipts, committedAt);
            && (r.Ok? <==> PrefixOk(d, ids, |ids|))
            && (r.Ok? ==>
                  var accepted, v := Fresh(ids, d.receipts, |ids|), d.head.version;
                  && (r.value.result.snapshot.None? <==> accepted == [])
                  && r.value.result.acceptedEvents == Placed(accepted, v.eventSeq, v.snapshotId + 1))
  {
    hide PayloadHash, HashSource, Acks, Firsts, Reused, PredecessorsMatch, ReceiptsFor, ApplyEvents, EventIds,
         BatchRowId;
    var ids := HashEvents(command.events);
    assert ids[..|ids|] == ids;
  }

  lemma NothingReached(d: Doc)
    requires Held(d) && Gapless(d) && HeadOk(d.head)
    ensures BatchReached(d, d, [])
  {
    assert Raw([]) == [];
  }

  lemma BatchAdded(d: Doc, p: Publication, accepted: seq<Identity>)
    requires Inv(d) && Fits(d, p)
    requires p.events == Placed(accepted, d.head.version.eventSeq, d.head.version.snapshotId + 1)
    ensures BatchReached(d, Publish(d, p), accepted)
  {
    hide Inv, Publish, EventsAdded, Adds, Gapless, HeadOk, EventsFit, HashSource, EventIds;
    InvHeld(d);
    FitsAdds(d, p);
    EventsPlaced(d, p, accepted, Publish(d, p));
    OpsOnly(HeadContent(d), p.events, Raw(accepted));
    assert p.content == ApplyEvents(HeadContent(d), p.events);
  }

  lemma EventsPlaced(d: Doc, p: Publication, accepted: seq<Identity>, r: Doc)
    requires Adds(d, p, r) && HeadOk(d.head)
    requires p.events == Placed(accepted, d.head.version.eventSeq, d.head.version.snapshotId + 1)
    ensures EventsAdded(d, r, accepted)
  {
    hide Adds, HeadOk;
    AddsEvents(d, p, r);
    var n := d.head.version.eventSeq;
    forall i | n < i <= n + |accepted|
      ensures i in r.events && r.events[i].(snapshotId := None) ==
                accepted[i - n - 1].event.(seq_ := i, snapshotId := None) {
      assert r.events[i] == p.events[i - n - 1];
    }
  }

  /** A non-empty envelope is accepted exactly when its events are accepted one at a time, and
      then both ways end with the same text and the same events in the same places. */
  lemma Fusion(d: Doc, command: BatchRecord, committedAt: int, clocks: seq<int>)
    requires Inv(d) && command.events != [] && |clocks| == |command.events| && SameClock(clocks, committedAt)
    ensures var fused, each := SubmitBatch(d, command, committedAt), SubmitEach(d, command, |command.events|, clocks);
            && (fused.Ok? <==> each.Ok?)
            && (fused.Ok? ==> SameDocument(fused.value, each.value)
                              && ReportsTotal(d, command, committedAt, each.value.head.version.eventSeq + 1))
  {
    hide PayloadHash, Inv, ReportsTotal, HeadError, SubmitBatch, SameDocument, BatchReached, PrefixOk, EventsAdded,
         ValidTime;
    if HeadError(command, d.head, committedAt).Some? {
      RefusedBatch(d, command, committedAt);
      FirstRefused(d, command, |command.events|, clocks, committedAt);
    } else {
      EachReaches(d, command, |command.events|, clocks, committedAt);
      BatchReaches(d, command, committedAt);
      var fused, each := SubmitBatch(d, command, committedAt), SubmitEach(d, command, |command.events|, clocks);
      if fused.Ok? {
        SubmitKeeps(d, command, committedAt);
        TotalStored(d, command, committedAt);
        EachKeeps(d, command, |command.events|, clocks);
        SameAdded(d, fused.value, each.value, HashEvents(command.events));
      }
    }
  }

  ghost predicate ReportsTotal(d: Doc, command: BatchRecord, committedAt: int, total: int) {
    Held(d) && BatchAt(d, command, committedAt).Ok?
    && BatchAt(d, command, committedAt).value.result.totalStored == total
  }

  /** The reported total counts the stored events. */
  lemma TotalStored(d: Doc, command: BatchRecord, committedAt: int)
    requires Inv(d) && SubmitBatch(d, command, committedAt).Ok?
    ensures ReportsTotal(d, command, committedAt, SubmitBatch(d, command, committedAt).value.head.version.eventSeq + 1)
  {
    hide Inv;
  }

  lemma SameAdded(d: Doc, r: Doc, g: Doc, ids: seq<Identity>)
    requires Inv(r) && Inv(g)
    requires BatchReached(d, r, Fresh(ids, d.receipts, |ids|)) && Reached(d, g, ids, |ids|)
    ensures SameDocument(r, g) && r.head.version.eventSeq == g.head.version.eventSeq
  {
    hide Inv, ReceiptsReached, Raw, EventsAdded, HeadOk, Gapless, HashSource;
    InvHeld(r);
    InvHeld(g);
    HeadContentHash(r);
    HeadContentHash(g);
    SameAddedEvents(d, r, g, Fresh(ids, d.receipts, |ids|));
  }

  lemma SameAddedEvents(d: Doc, r: Doc, g: Doc, added: seq<Identity>)
    requires Gapless(r) && Gapless(g) && EventsAdded(d, r, added) && EventsAdded(d, g, added)
    ensures SameEvents(r, g)
  {
    hide Gapless;
    forall i | 0 <= i <= r.head.version.eventSeq
      ensures r.events[i].(snapshotId := None) == g.events[i].(snapshotId := None) {
      assert i in r.events;
    }
  }

  /** The same text and the same events; only the snapshots the events are grouped in differ. */
  ghost predicate SameDocument(r: Doc, g: Doc) {
    && Inv(r) && Inv(g) && SameEvents(r, g) && Held(r) && Held(g)
    && HeadContent(r) == HeadContent(g)
    && r.head.version.sourceContentHash == g.head.version.sourceContentHash
  }

  lemma SameHead(d: Doc, command: BatchRecord, t: int, u: int)
    requires command.events != [] && ValidTime(t) == ValidTime(u)
    ensures HeadError(One(command, 0), d.head, u) == HeadError(command, d.head, t)
  {
  }

  lemma RefusedBatch(d: Doc, command: BatchRecord, committedAt: int)
    requires Inv(d) && HeadError(command, d.head, committedAt).Some?
    ensures SubmitBatch(d, command, committedAt).Err?
  {
  }

  lemma {:induction false} FirstRefused(d: Doc, command: BatchRecord, n: nat, clocks: seq<int>, committedAt: int)
    requires Inv(d) && 0 < n <= |command.events| == |clocks| && SameClock(clocks, committedAt)
    requires HeadError(command, d.head, committedAt).Some?
    ensures SubmitEach(d, command, n, clocks).Err?
  {
    hide Inv, SubmitBatch, HeadError, ValidTime;
    if n == 1 {
      assert SubmitEach(d, command, 0, clocks) == Ok(d);
      SameHead(d, command, committedAt, clocks[0]);
      RefusedBatch(d, One(command, 0), clocks[0]);
    } else {
      FirstRefused(d, command, n - 1, clocks, committedAt);
    }
  }
}
