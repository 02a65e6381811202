/** Outbox ids are tuples that start with their kind and target, so an id tells both. */
module RowNames {
  import opened JsText
  import opened Json
  import opened BranchState
  import opened FactStream
  import opened NullMem

  const COMMIT_TAG := U("branch.commit.v1")
  const BATCH_TAG := U("branch.batch-commit.v1")
  const FACT_TAG := U("branch.runtime-fact.v1")

  /** The id is the text of a tuple that starts with this tag and target. */
  ghost predicate Named(id: Text, tag: Text, t: Target) {
    exists parts :: IsName(parts, id, tag, t)
  }

  ghost predicate IsName(parts: seq<Json>, id: Text, tag: Text, t: Target) {
    && |parts| >= 3 && (forall i :: 0 <= i < |parts| ==> PlainPart(parts[i]))
    && parts[0] == JStr(tag) && parts[1] == JStr(t.rootDropId) && parts[2] == JStr(t.branchId) && id == TupleText(parts)
  }

  /** Ids with different tags or targets are different. */
  lemma NamesApart(id: Text, s: Text, t: Target, r: Text, u: Target)
    requires Named(id, s, t) && Named(id, r, u)
    ensures s == r && t == u
  {
    hide U, TupleText, Wf;
    var a :| IsName(a, id, s, t);
    var b :| IsName(b, id, r, u);
    TupleTextDecides(a, b);
  }

  lemma Tags()
    ensures COMMIT_TAG != BATCH_TAG && COMMIT_TAG != FACT_TAG && COMMIT_TAG != MEMORY_KIND
    ensures BATCH_TAG != FACT_TAG && BATCH_TAG != MEMORY_KIND && FACT_TAG != MEMORY_KIND
  {
    assert |COMMIT_TAG| == 16 && |BATCH_TAG| == 22 && |FACT_TAG| == 22 && |MEMORY_KIND| == 17;
    assert BATCH_TAG[7] == 98 && FACT_TAG[7] == 114;
  }

  lemma CommitNamed(t: Target, e: Text)
    ensures Named(CommitRowId(t, e), COMMIT_TAG, t)
  {
    hide U, TupleText;
    assert IsName([JStr(COMMIT_TAG), JStr(t.rootDropId), JStr(t.branchId), JStr(e)], CommitRowId(t, e), COMMIT_TAG, t);
  }

  lemma BatchNamed(t: Target, m: int)
    ensures Named(BatchRowId(t, m), BATCH_TAG, t)
  {
    hide U, TupleText, IntJson;
    IntPlain(m);
    assert IsName([JStr(BATCH_TAG), JStr(t.rootDropId), JStr(t.branchId), IntJson(m)], BatchRowId(t, m), BATCH_TAG, t);
  }

  lemma IntPlain(m: int)
    ensures PlainPart(IntJson(m))
  {
    IntJsonDecides(m, m);
  }

  lemma FactNamed(t: Target, p: Placement, identity: Text)
    ensures Named(FactRowId(t, p, identity), FACT_TAG, t)
  {
    hide U, TupleText, IntJson, FactRowId;
    IntPlain(p.routingVersion);
    IntPlain(p.generation);
    FactRowText(t, p, identity);
    assert IsName(FactRowParts(t, p, identity), FactRowId(t, p, identity), FACT_TAG, t);
  }

  lemma MemoryNamed(t: Target, p: Placement, revision: int)
    ensures Named(MemoryRowId(t, p, revision), MEMORY_KIND, t)
  {
    hide U, TupleText, IntJson;
    IntPlain(p.routingVersion);
    IntPlain(p.generation);
    IntPlain(revision);
    assert IsName(MemoryRowParts(t, p, revision), MemoryRowId(t, p, revision), MEMORY_KIND, t);
  }
}
