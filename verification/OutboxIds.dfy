/** The ids of all outbox rows ever published are distinct: across the four kinds, within a branch
    and between branches. */
module OutboxIds {
  import opened JsText
  import opened BranchState
  import opened Timeline
  import opened FactStream
  import opened NullMem
  import opened NullMemState
  import opened RowNames
  import opened StatePlane
  import opened Runs

  lemma DocIdNamed(d: Doc, id: Text)
    requires OutboxOk(d) && id in d.outbox
    ensures Named(id, COMMIT_TAG, d.head.target) || Named(id, BATCH_TAG, d.head.target)
  {
    assert RowOk(d, id);
    match d.outbox[id]
    case CommitRow(_, r) => CommitNamed(d.head.target, r.eventId);
    case BatchRow(_, _, _, v, _, _, _, _, _) => BatchNamed(d.head.target, v.snapshotId);
  }

  // All ids of a branch ------------------------------------------------------------------------------

  lemma MemoryIdOf(d: Doc, mem: Memory, i: nat)
    requires MemoryInv(d, mem) && i < |mem.log|
    ensures mem.log[i].id == MemoryRowId(d.head.target, d.head.placement, i + 1)
  {
    hide LogStored, AllValid, DistinctRecords, RecordStamped, Table, Replayed, ValidRecord, MemoryRowId, IntentOf,
         StampedAt;
    assert EntryOk(d.head, mem.log[i], 0 + i + 1);
  }

  lemma {:induction false} MemoryIdCount(d: Doc, mem: Memory, n: nat)
    requires MemoryInv(d, mem) && n <= |mem.log|
    ensures |MemoryIds(mem.log[..n])| == n
  {
    hide MemoryInv;
    if n > 0 {
      MemoryIdCount(d, mem, n - 1);
      IdsAppend(mem.log, n - 1);
      NextIdNew(d, mem, n - 1);
    }
  }

  lemma NextIdNew(d: Doc, mem: Memory, n: nat)
    requires MemoryInv(d, mem) && n < |mem.log|
    ensures mem.log[n].id !in MemoryIds(mem.log[..n])
  {
    hide MemoryInv, MemoryRowId;
    var a := mem.log[..n];
    forall i | 0 <= i < |a| ensures a[i].id != mem.log[n].id {
      assert a[i] == mem.log[i];
      MemoryIdOf(d, mem, i);
      MemoryIdOf(d, mem, n);
      MemoryRowIdDecides(d.head.target, d.head.target, d.head.placement, d.head.placement, i + 1, n + 1);
    }
  }

  lemma IdsAppend(log: seq<Entry>, n: nat)
    requires n < |log|
    ensures MemoryIds(log[..n + 1]) == MemoryIds(log[..n]) + {log[n].id}
  {
    var a, b := log[..n], log[..n + 1];
    assert b[n] == log[n] && forall i :: 0 <= i < n ==> a[i] == b[i];
    forall id | id in MemoryIds(b) ensures id in MemoryIds(a) + {log[n].id} {
      var i :| 0 <= i < |b| && b[i].id == id;
      if i < n { assert a[i].id == id; }
    }
    forall id | id in MemoryIds(a) ensures id in MemoryIds(b) {
      var i :| 0 <= i < |a| && a[i].id == id;
      assert b[i].id == id;
    }
  }

  /** Which of the three stores an id is in shows in its tag. */
  lemma IdNamed(l: Live, target: Target, id: Text)
    requires LiveInv(l, target)
    ensures id in l.doc.outbox ==> Named(id, COMMIT_TAG, target) || Named(id, BATCH_TAG, target)
    ensures id in l.facts.outbox ==> Named(id, FACT_TAG, target)
    ensures id in MemoryIds(l.memory.log) ==> Named(id, MEMORY_KIND, target)
  {
    hide Named, MemoryInv, Gapless, SnapshotsOk, ReceiptsOk, OutboxOk, FactRowOk, MemoryRowId, FactRowId;
    if id in l.doc.outbox { DocIdNamed(l.doc, id); }
    if id in l.facts.outbox { FactNamed(target, l.doc.head.placement, l.facts.outbox[id].identity); }
    if id in MemoryIds(l.memory.log) {
      var i :| 0 <= i < |l.memory.log| && l.memory.log[i].id == id;
      MemoryIdOf(l.doc, l.memory, i);
      MemoryNamed(target, l.doc.head.placement, i + 1);
    }
  }

  /** No two of the rows a branch ever published share an id: there are as many ids as snapshots
      after the first, facts and memory revisions together. */
  lemma NoIdTwice(l: Live, target: Target)
    requires LiveInv(l, target)
    ensures |AllIds(l)| == l.doc.head.version.snapshotId + |l.facts.rows| + l.memory.revision
  {
    hide Named, Gapless, SnapshotsOk, ReceiptsOk, FactRowOk, MemoryRowId, FactRowId, LogOk, LogStored, Table,
         Replayed, DistinctRecords, AllValid, RecordStamped, Apart, HasSeq, U;
    Tags();
    var a, b, c := l.doc.outbox.Keys, l.facts.outbox.Keys, MemoryIds(l.memory.log);
    forall id ensures !(id in a && id in b) && !(id in a && id in c)
           && !(id in b && id in c) { KindsApart(l, target, id); }
    MemoryIdCount(l.doc, l.memory, |l.memory.log|);
    assert l.memory.log[..|l.memory.log|] == l.memory.log;
    assert |l.doc.outbox.Keys| == |l.doc.outbox| && |l.facts.outbox.Keys| == |l.facts.outbox|;
    DisjointSizes(a, b);
    DisjointSizes(a + b, c);
  }

  lemma DisjointSizes(a: set<Text>, b: set<Text>)
    requires a !! b
    ensures |a + b| == |a| + |b|
  {
  }

  lemma KindsApart(l: Live, target: Target, id: Text)
    requires LiveInv(l, target)
    ensures !(id in l.doc.outbox && id in l.facts.outbox)
    ensures !(id in l.doc.outbox && id in MemoryIds(l.memory.log))
    ensures !(id in l.facts.outbox && id in MemoryIds(l.memory.log))
  {
    hide LiveInv, Named, U;
    Tags();
    IdNamed(l, target, id);
    if Named(id, COMMIT_TAG, target)
       && Named(id, FACT_TAG, target) { NamesApart(id, COMMIT_TAG, target, FACT_TAG, target); }
    if Named(id, BATCH_TAG, target)
       && Named(id, FACT_TAG, target) { NamesApart(id, BATCH_TAG, target, FACT_TAG, target); }
    if Named(id, COMMIT_TAG, target)
       && Named(id, MEMORY_KIND, target) { NamesApart(id, COMMIT_TAG, target, MEMORY_KIND, target); }
    if Named(id, BATCH_TAG, target)
       && Named(id, MEMORY_KIND, target) { NamesApart(id, BATCH_TAG, target, MEMORY_KIND, target); }
    if Named(id, FACT_TAG, target)
       && Named(id, MEMORY_KIND, target) { NamesApart(id, FACT_TAG, target, MEMORY_KIND, target); }
  }

  /** Different branches share no id at all. */
  lemma BranchesApart(l: Live, m: Live, t: Target, u: Target)
    requires LiveInv(l, t) && LiveInv(m, u) && t != u
    ensures AllIds(l) !! AllIds(m)
  {
    hide LiveInv, Named, U;
    forall id | id in AllIds(l) && id in AllIds(m) ensures false {
      IdNamed(l, t, id);
      IdNamed(m, u, id);
      SomeTag(l, t, id);
      SomeTag(m, u, id);
      var s :| Named(id, s, t);
      var r :| Named(id, r, u);
      NamesApart(id, s, t, r, u);
    }
  }

  lemma SomeTag(l: Live, t: Target, id: Text)
    requires LiveInv(l, t) && id in AllIds(l)
    ensures exists s :: Named(id, s, t)
  {
    hide LiveInv, Named, U, MemoryIds;
    IdNamed(l, t, id);
  }

  /** Ids are never withdrawn, so the two lemmas above speak of every id ever published: in any
      run, any state's ids are among those of every later state. */
  lemma IdsKept(start: Plane, actions: seq<Action>, i: nat, j: nat)
    requires Initial(start) && i <= j <= |actions|
    ensures var p, q := Run(start, actions)[i], Run(start, actions)[j];
            p.live.Some? ==> q.live.Some? && AllIds(p.live.value) <= AllIds(q.live.value)
                             && LiveInv(q.live.value, start.target) && q.target == start.target
  {
    hide PlaneInv, Run, Extends, PlaneStep, Initial;
    RunSafe(start, actions);
    RunStarts(start, actions);
    var p, q := Run(start, actions)[i], Run(start, actions)[j];
    assert PlaneStep(p, q) && PlaneStep(Run(start, actions)[0], q) && PlaneInv(q);
    StepKeepsIds(p, q);
    SameTarget(start, q);
    if q.live.Some? { LiveParts(q); }
  }

  lemma StepKeepsIds(p: Plane, q: Plane)
    requires PlaneStep(p, q)
    ensures p.live.Some? ==> q.live.Some? && AllIds(p.live.value) <= AllIds(q.live.value)
  {
    hide Extends;
    if p.live.Some? {
      var l, m := p.live.value, q.live.value;
      forall id | id in MemoryIds(l.memory.log) ensures id in MemoryIds(m.memory.log) {
        var i :| 0 <= i < |l.memory.log| && l.memory.log[i].id == id;
        assert m.memory.log[i].id == id;
      }
    }
  }

  /** Delivery knows as many rows as a branch ever published. */
  lemma EveryRowRegistered(p: Plane)
    requires PlaneInv(p) && p.live.Some?
    ensures p.delivery.Keys == AllIds(p.live.value)
    ensures |p.delivery| == p.live.value.doc.head.version.snapshotId + |p.live.value.facts.rows| +
              p.live.value.memory.revision
  {
    hide LiveInv, LifecycleOk, Named, AllIds;
    NoIdTwice(p.live.value, p.target);
    assert |p.delivery.Keys| == |p.delivery|;
  }
}
