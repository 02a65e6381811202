/** Runtime facts (shared/drop/branch-runtime-facts.ts): identity, retry intent and receipts.
    A fact is a JSON object, so extension fields are carried along untouched. */
module RuntimeFacts {
  import opened Wrappers
  import opened JsText
  import opened Json
  import opened JsonCanonical
  import opened JsonEdit
  import opened BranchState

  const ID := U("id")
  const PRIMITIVE_ID := U("primitiveId")
  const CALL_ID := U("callId")
  const SOURCE := U("source")
  const METADATA := U("metadata")
  const ACTOR := U("actorAccountId")
  const SNAPSHOT_ID := U("snapshotId")
  const SOURCE_HASH := U("sourceContentHash")

  const RESPONSE := U("ui.response")
  const PATCH := U("ui.state.patch")
  const SNAPSHOT := U("ui.state.snapshot")

  /** The printed form of a digest; printing is one to one, and this spelling stands for it. */
  function DigestText(d: Digest): Text {
    U("sha256:") + d.bytes
  }

  function Source(f: Json): Json {
    if Lookup(f, SOURCE).Some? then Lookup(f, SOURCE).value else JNull
  }

  function HandleKey(f: Json): Text { if TextAt(f, KIND) == RESPONSE then PRIMITIVE_ID else CALL_ID }

  /** What the code below relies on of isNullplugUiRuntimeFact. */
  predicate IsFact(f: Json) {
    && Wf(f) && f.JObj? && Source(f).JObj?
    && Lookup(f, KIND) in {Some(JStr(RESPONSE)), Some(JStr(PATCH)), Some(JStr(SNAPSHOT))}
    && IsText(Lookup(f, ID)) && IsText(Lookup(f, HandleKey(f)))
    && IsText(Lookup(Source(f), ROOT)) && MaybeText(Lookup(Source(f), BRANCH))
    && MaybeText(Lookup(Source(f), SOURCE_HASH))
    && (Lookup(f, METADATA).Some? ==> Lookup(f, METADATA).value.JObj?)
  }

  // Identity ---------------------------------------------------------------------------------

  /** runtimeFactIdentity: the exact identity is a tuple. */
  function FactIdentity(f: Json): Text {
    Canonical(JArr(Tuple([JStr(TextAt(f, KIND)), JStr(TextAt(f, HandleKey(f))), JStr(TextAt(f, ID))])))
  }

  /** nullplugUiRuntimeFactId: the public id is colon-delimited. */
  function FactId(f: Json): Text {
    TextAt(f, KIND) + U(":") + TextAt(f, HandleKey(f)) + U(":") + TextAt(f, ID)
  }

  function SanitizeUnit(u: Unit): Unit {
    if 65 <= u < 91 || 97 <= u < 123 || 48 <= u < 58 || u == 46 || u == 95 || u == 58 || u == 45 then u else 95
  }

  function Sanitize(t: Text): Text {
    seq(|t|, i requires 0 <= i < |t| => SanitizeUnit(t[i]))
  }

  function Prefix(kind: Text, source: Json): Text {
    (if kind == RESPONSE then U("__nullplug_ui_response_fact__/")
     else if kind == PATCH then U("__nullplug_ui_state_patch_fact__/")
     else U("__nullplug_ui_state_snapshot__/"))
    + Sanitize(TextAt(source, ROOT)) + U("/")
    + (if TextAt(source, BRANCH) != [] then Sanitize(TextAt(source, BRANCH)) else U("drop")) + U("/")
  }

  /** runtimeFactKey */
  function FactKey(f: Json): Text {
    var kind, handle := TextAt(f, KIND), TextAt(f, HandleKey(f));
    Prefix(kind, Source(f))
    + (if kind == RESPONSE || handle != [] then Sanitize(handle) + U("/") else [])
    + Sanitize(TextAt(f, ID)) + U(".json")
  }

  /** The three members of an identity. */
  ghost predicate SameIdentity(f: Json, g: Json) {
    && TextAt(f, KIND) == TextAt(g, KIND) && TextAt(f, ID) == TextAt(g, ID)
    && TextAt(f, HandleKey(f)) == TextAt(g, HandleKey(g))
  }

  lemma IdentityTuple(f: Json)
    ensures FactIdentity(f) == TupleText([JStr(TextAt(f, KIND)), JStr(TextAt(f, HandleKey(f))), JStr(TextAt(f, ID))])
  {
    NormTuple([JStr(TextAt(f, KIND)), JStr(TextAt(f, HandleKey(f))), JStr(TextAt(f, ID))]);
  }

  lemma {:induction false} NormTuple(parts: seq<Json>)
    requires forall i :: 0 <= i < |parts| ==> PlainPart(parts[i])
    ensures NormItems(Tuple(parts)) == Tuple(parts)
    decreases |parts|
  {
    if parts != [] { NormTuple(parts[1..]); }
  }

  /** Identities are equal exactly when kind, handle and id are; no delimiter can confuse them. */
  lemma IdentityDecides(f: Json, g: Json)
    ensures FactIdentity(f) == FactIdentity(g) <==> SameIdentity(f, g)
  {
    hide FactIdentity, TextAt, HandleKey, TupleText;
    IdentityTuple(f);
    IdentityTuple(g);
    var a := [JStr(TextAt(f, KIND)), JStr(TextAt(f, HandleKey(f))), JStr(TextAt(f, ID))];
    var b := [JStr(TextAt(g, KIND)), JStr(TextAt(g, HandleKey(g))), JStr(TextAt(g, ID))];
    TupleTextDecides(a, b);
    assert a[0] == JStr(TextAt(f, KIND)) && a[1] == JStr(TextAt(f, HandleKey(f))) && a[2] == JStr(TextAt(f, ID));
    assert b[0] == JStr(TextAt(g, KIND)) && b[1] == JStr(TextAt(g, HandleKey(g))) && b[2] == JStr(TextAt(g, ID));
  }

  // Public names --------------------------------------------------------------------------------

  /** The public id alone tells facts apart as long as no handle has a colon in it. */
  lemma FactIdDecides(f: Json, g: Json)
    requires TextAt(f, KIND) in {RESPONSE, PATCH, SNAPSHOT} && TextAt(g, KIND) in {RESPONSE, PATCH, SNAPSHOT}
    requires 58 !in TextAt(f, HandleKey(f)) && 58 !in TextAt(g, HandleKey(g))
    ensures FactId(f) == FactId(g) <==> SameIdentity(f, g)
  {
    hide TextAt, HandleKey;
    KindsPlain();
    assert U(":") == [58];
    hide U;
    var k, l, h, i := TextAt(f, KIND), TextAt(g, KIND), TextAt(f, HandleKey(f)), TextAt(g, HandleKey(g));
    var x, y := h + [58] + TextAt(f, ID), i + [58] + TextAt(g, ID);
    assert FactId(f) == k + [58] + x && FactId(g) == l + [58] + y;
    SplitAtColon(k, l, x, y);
    SplitAtColon(h, i, TextAt(f, ID), TextAt(g, ID));
  }

  lemma KindsPlain()
    ensures 58 !in RESPONSE && 58 !in PATCH && 58 !in SNAPSHOT
  {
  }

  lemma SplitAtColon(a: Text, b: Text, x: Text, y: Text)
    requires 58 !in a && 58 !in b
    ensures a + [58] + x == b + [58] + y <==> a == b && x == y
  {
    var s, t := a + [58] + x, b + [58] + y;
    assert s[|a|] == 58 && t[|b|] == 58;
    assert (forall i :: 0 <= i < |a| ==> s[i] == a[i]) && (forall i :: 0 <= i < |b| ==> t[i] == b[i]);
    if s == t {
      assert s[..|a|] == a && t[..|b|] == b && s[|a| + 1..] == x && t[|b| + 1..] == y;
    }
  }

  /** With colons it does not: these two facts differ in handle and id and share a public id, which
      is why names are checked beside identities. */
  lemma FactIdCollides(f: Json, g: Json)
    requires TextAt(f, KIND) == RESPONSE && TextAt(g, KIND) == RESPONSE
    requires TextAt(f, PRIMITIVE_ID) == U("a:b") && TextAt(f, ID) == U("c")
    requires TextAt(g, PRIMITIVE_ID) == U("a") && TextAt(g, ID) == U("b:c")
    ensures FactId(f) == FactId(g) && FactIdentity(f) != FactIdentity(g)
  {
    hide TextAt, FactIdentity;
    assert |TextAt(f, ID)| == 1 && |TextAt(g, ID)| == 3;
    IdentityDecides(f, g);
    assert U("a:b") + U(":") + U("c") == U("a") + U(":") + U("b:c");
    hide U;
    Reassociate(RESPONSE, U(":"), U("a:b"), U("c"));
    Reassociate(RESPONSE, U(":"), U("a"), U("b:c"));
  }

  lemma Reassociate(k: Text, c: Text, h: Text, i: Text)
    ensures k + c + h + c + i == k + c + (h + c + i)
  {
  }

  predicate IsKeyUnit(u: Unit) {
    65 <= u < 91 || 97 <= u < 123 || 48 <= u < 58 || u in {45, 46, 47, 58, 95}
  }

  /** Storage keys are made of letters, digits and . _ : - / only, whatever the names hold. */
  lemma FactKeySafe(f: Json)
    ensures SafeKey(FactKey(f))
  {
    MarksSafe();
    hide TextAt, Sanitize, U, SafeKey;
    var kind, handle, source := TextAt(f, KIND), TextAt(f, HandleKey(f)), Source(f);
    SafeSanitized(handle);
    SafeSanitized(TextAt(f, ID));
    PrefixSafe(kind, source);
    var middle := if kind == RESPONSE || handle != [] then Sanitize(handle) + U("/") else [];
    SafeConcat(Sanitize(handle), U("/"));
    SafeConcat(Prefix(kind, source), middle);
    SafeConcat(Prefix(kind, source) + middle, Sanitize(TextAt(f, ID)));
    SafeConcat(Prefix(kind, source) + middle + Sanitize(TextAt(f, ID)), U(".json"));
  }

  ghost predicate SafeKey(t: Text) { forall i :: 0 <= i < |t| ==> IsKeyUnit(t[i]) }

  lemma SafeConcat(a: Text, b: Text)
    requires SafeKey(a) && SafeKey(b)
    ensures SafeKey(a + b)
  {
  }

  lemma SafeSanitized(t: Text)
    ensures SafeKey(Sanitize(t))
  {
  }

  lemma ResponseSafe()
    ensures SafeKey(U("__nullplug_ui_response_fact__/"))
  {
  }

  lemma PatchSafe()
    ensures SafeKey(U("__nullplug_ui_state_patch_fact__/"))
  {
  }

  lemma SnapshotSafe()
    ensures SafeKey(U("__nullplug_ui_state_snapshot__/"))
  {
  }

  lemma MarksSafe()
    ensures SafeKey(U("/")) && SafeKey(U(".json")) && SafeKey([]) && SafeKey(U("drop"))
  {
  }

  lemma PrefixSafe(kind: Text, source: Json)
    ensures SafeKey(Prefix(kind, source))
  {
    ResponseSafe();
    PatchSafe();
    SnapshotSafe();
    MarksSafe();
    hide TextAt, Sanitize, U, SafeKey;
    var head := if kind == RESPONSE then U("__nullplug_ui_response_fact__/")
                else if kind == PATCH then U("__nullplug_ui_state_patch_fact__/")
                else U("__nullplug_ui_state_snapshot__/");
    var branch := if TextAt(source, BRANCH) != [] then Sanitize(TextAt(source, BRANCH)) else U("drop");
    SafeSanitized(TextAt(source, ROOT));
    SafeSanitized(TextAt(source, BRANCH));
    SafeConcat(head, Sanitize(TextAt(source, ROOT)));
    SafeConcat(head + Sanitize(TextAt(source, ROOT)), U("/"));
    SafeConcat(head + Sanitize(TextAt(source, ROOT)) + U("/"), branch);
    SafeConcat(head + Sanitize(TextAt(source, ROOT)) + U("/") + branch, U("/"));
  }

  // Intent -----------------------------------------------------------------------------------

  /** delete fact.createdAt; delete fact.source.snapshotId */
  function Strip(f: Json): Json {
    if f.JObj? && Source(f).JObj?
    then JObj(Put(Delete(f.members, CREATED_AT), SOURCE, JObj(Delete(Source(f).members, SNAPSHOT_ID))))
    else f
  }

  /** runtimeFactIntent */
  function Intent(f: Json): Text {
    var copy := Parse(Canonical(f));
    if copy.Some? then Canonical(Strip(copy.value)) else []
  }

  /** hashRuntimeFactIntent */
  function IntentHash(intent: Text): Digest { DomainHash("nulldown.branch-runtime-fact.v1", intent) }

  /** The facts agree on everything but createdAt and source.snapshotId. */
  ghost predicate SameRequest(f: Json, g: Json) {
    && (forall k :: k != CREATED_AT && k != SOURCE ==> SameField(Lookup(f, k), Lookup(g, k)))
    && (forall k :: k != SNAPSHOT_ID ==> SameField(Lookup(Source(f), k), Lookup(Source(g), k)))
  }

  lemma Keys()
    ensures SOURCE != CREATED_AT && SOURCE != KIND && SOURCE != ID && SOURCE != PRIMITIVE_ID && SOURCE != CALL_ID
            && SOURCE != METADATA
    ensures CREATED_AT != KIND && CREATED_AT != ID && CREATED_AT != PRIMITIVE_ID && CREATED_AT != CALL_ID
            && CREATED_AT != METADATA
    ensures SNAPSHOT_ID != SOURCE && SNAPSHOT_ID != ROOT && SNAPSHOT_ID != BRANCH && SNAPSHOT_ID != SOURCE_HASH
    ensures METADATA != KIND && METADATA != ID && METADATA != PRIMITIVE_ID && METADATA != CALL_ID
  {
    assert |KIND| == 4 && |ID| == 2 && |PRIMITIVE_ID| == 11 && |CALL_ID| == 6 && |CREATED_AT| == 9;
    assert |SOURCE| == 6 && |METADATA| == 8;
    assert |ROOT| == 10 && |BRANCH| == 8 && |SNAPSHOT_ID| == 10 && |SOURCE_HASH| == 17;
    assert SOURCE[0] == 115 && CALL_ID[0] == 99 && ROOT[0] == 114 && SNAPSHOT_ID[0] == 115;
  }

  ghost predicate Shaped(f: Json) { Wf(f) && f.JObj? && Source(f).JObj? }

  lemma SourceWf(f: Json)
    requires Shaped(f)
    ensures WfMembers(f.members) && WfMembers(Source(f).members) && SOURCE in ToMap(f.members)
  {
    WfLookup(f.members, SOURCE);
  }

  lemma StripMaps(f: Json)
    requires Shaped(f)
    ensures Strip(f).JObj? && Wf(Strip(f)) && Lookup(Strip(f), SOURCE).Some? && Lookup(Strip(f), SOURCE).value.JObj?
    ensures ToMap(Strip(f).members) == (ToMap(f.members) - {CREATED_AT})[SOURCE := Source(Strip(f))]
    ensures ToMap(Source(Strip(f)).members) == ToMap(Source(f).members) - {SNAPSHOT_ID}
    ensures WfMembers(Source(Strip(f)).members)
  {
    hide U;
    SourceWf(f);
    var s := Delete(Source(f).members, SNAPSHOT_ID);
    DeleteMap(f.members, CREATED_AT);
    DeleteMap(Source(f).members, SNAPSHOT_ID);
    PutMap(Delete(f.members, CREATED_AT), SOURCE, JObj(s));
    assert Lookup(Strip(f), SOURCE) == Some(JObj(s));
  }

  /** What is stripped away is exactly what SameRequest does not look at. */
  lemma StripDecides(f: Json, g: Json)
    requires Shaped(f) && Shaped(g)
    ensures Same(Strip(f), Strip(g)) <==> SameRequest(f, g)
  {
    Keys();
    hide U, Same, Wf, Strip, Source, SameField;
    StripMaps(f);
    StripMaps(g);
    StripWf(f);
    StripWf(g);
    var s, t := Source(Strip(f)), Source(Strip(g));
    SameByKeys(Strip(f).members, Strip(g).members);
    SameByKeys(s.members, t.members);
    assert Strip(f) == JObj(Strip(f).members) && Strip(g) == JObj(Strip(g).members);
    assert s == JObj(s.members) && t == JObj(t.members);
    SameBut(ToMap(f.members), ToMap(g.members), CREATED_AT, SOURCE, s, t);
    SameBut(ToMap(Source(f).members), ToMap(Source(g).members), SNAPSHOT_ID, SOURCE, s, t);
    LookupGet(f);
    LookupGet(g);
    LookupGet(Source(f));
    LookupGet(Source(g));
  }

  lemma StripWf(f: Json)
    requires Shaped(f)
    ensures Strip(f).JObj? && WfMembers(Strip(f).members) && Source(Strip(f)).JObj?
            && WfMembers(Source(Strip(f)).members)
  {
    StripMaps(f);
  }

  lemma NormShaped(f: Json)
    requires Shaped(f)
    ensures Shaped(Norm(f)) && SameRequest(Norm(f), f)
  {
    SourceWf(f);
    NormWf(f);
    NormLookup(f.members, SOURCE);
    hide U, Same, Wf;
    assert Source(Norm(f)) == Norm(Source(f));
    forall k ensures SameField(Lookup(Norm(f), k), Lookup(f, k))
           && SameField(Lookup(Norm(Source(f)), k), Lookup(Source(f), k)) {
      NormField(f.members, k);
      NormField(Source(f).members, k);
    }
  }

  /** The intent is the canonical text of the fact without the two assigned fields. */
  lemma IntentText(f: Json)
    requires Shaped(f)
    ensures Intent(f) == Canonical(Strip(f))
  {
    hide U, Same, Wf, Strip, SameRequest, Norm;
    ParseCanonical(f);
    NormShaped(f);
    StripDecides(Norm(f), f);
    StripMaps(f);
    StripMaps(Norm(f));
    CanonicalDecides(Strip(Norm(f)), Strip(f));
  }

  /** Two facts have the same intent exactly when they differ at most in createdAt and
      source.snapshotId; and the hash of the intent tells intents apart. */
  lemma IntentDecides(f: Json, g: Json)
    requires Shaped(f) && Shaped(g)
    ensures Intent(f) == Intent(g) <==> SameRequest(f, g)
    ensures IntentHash(Intent(f)) == IntentHash(Intent(g)) <==> SameRequest(f, g)
  {
    IntentText(f);
    IntentText(g);
    StripMaps(f);
    StripMaps(g);
    hide U, Same, Wf, Strip, SameRequest, Norm, Intent;
    StripDecides(f, g);
    CanonicalDecides(Strip(f), Strip(g));
    WriteWellFormed(Norm(Strip(f)));
    WriteWellFormed(Norm(Strip(g)));
    IntentHashDecides(Intent(f), Intent(g));
  }

  lemma IntentHashDecides(a: Text, b: Text)
    requires WellFormed(a) && WellFormed(b)
    ensures IntentHash(a) == IntentHash(b) <==> a == b
  {
    AsciiWellFormed(U("nulldown.branch-runtime-fact.v1"));
    DomainHashDecides("nulldown.branch-runtime-fact.v1", a, b);
  }

  // The stored fact ----------------------------------------------------------------------------

  /** { ...fact, createdAt: now, source: { ...fact.source, snapshotId } } */
  function Assigned(f: Json, now: int, snapshotId: int): Json {
    if f.JObj? && Source(f).JObj?
    then JObj(Put(Put(f.members, CREATED_AT, IntJson(now)), SOURCE,
                  JObj(Put(Source(f).members, SNAPSHOT_ID, IntJson(snapshotId)))))
    else f
  }

  lemma AssignedMaps(f: Json, now: int, snapshotId: int)
    requires Shaped(f)
    ensures var g := Assigned(f, now, snapshotId);
            && Shaped(g) && ToMap(g.members) == ToMap(f.members)[CREATED_AT := IntJson(now)][SOURCE := Source(g)]
            && ToMap(Source(g).members) == ToMap(Source(f).members)[SNAPSHOT_ID := IntJson(snapshotId)]
  {
    SourceWf(f);
    IntJsonDecides(now, snapshotId);
    IntJsonDecides(snapshotId, now);
    hide U, IntJson;
    PutMap(f.members, CREATED_AT, IntJson(now));
    PutMap(Source(f).members, SNAPSHOT_ID, IntJson(snapshotId));
    var s := JObj(Put(Source(f).members, SNAPSHOT_ID, IntJson(snapshotId)));
    PutMap(Put(f.members, CREATED_AT, IntJson(now)), SOURCE, s);
    assert Lookup(Assigned(f, now, snapshotId), SOURCE) == Some(s);
  }

  /** Every other field is kept as it is. */
  lemma AssignedFields(f: Json, now: int, snapshotId: int)
    requires Shaped(f)
    ensures var g := Assigned(f, now, snapshotId);
            && Shaped(g)
            && Lookup(g, CREATED_AT) == Some(IntJson(now))
            && Lookup(Source(g), SNAPSHOT_ID) == Some(IntJson(snapshotId))
            && (forall k :: k != CREATED_AT && k != SOURCE ==> Lookup(g, k) == Lookup(f, k))
            && (forall k :: k != SNAPSHOT_ID ==> Lookup(Source(g), k) == Lookup(Source(f), k))
  {
    Keys();
    AssignedMaps(f, now, snapshotId);
    hide U, IntJson, Assigned, Wf;
  }

  /** Whatever head and time it is stored at, a fact keeps its identity, its public names and its
      retry intent. */
  lemma StoredFactMatches(f: Json, now: int, snapshotId: int)
    requires IsFact(f)
    ensures var g := Assigned(f, now, snapshotId);
            && IsFact(g) && FactIdentity(g) == FactIdentity(f) && FactId(g) == FactId(f) && FactKey(g) == FactKey(f)
            && SameRequest(g, f) && Intent(g) == Intent(f)
  {
    hide U, IntJson, Assigned, Wf, Intent, Sanitize, Canonical, SameRequest;
    Keys();
    AssignedFields(f, now, snapshotId);
    AssignedRequest(f, now, snapshotId);
  }

  lemma AssignedRequest(f: Json, now: int, snapshotId: int)
    requires Shaped(f)
    ensures var g := Assigned(f, now, snapshotId); SameRequest(g, f) && Intent(g) == Intent(f)
  {
    hide U, IntJson, Assigned, Wf, Intent, Same;
    SourceWf(f);
    AssignedFields(f, now, snapshotId);
    var g := Assigned(f, now, snapshotId);
    forall k | k != CREATED_AT && k != SOURCE ensures SameField(Lookup(g, k), Lookup(f, k)) { FieldRefl(f, k); }
    forall k | k != SNAPSHOT_ID
      ensures SameField(Lookup(Source(g), k), Lookup(Source(f), k)) { FieldRefl(Source(f), k); }
    IntentDecides(g, f);
  }

  /** Facts that make the same request are the same fact. */
  lemma SameRequestSameIdentity(f: Json, g: Json)
    requires IsFact(f) && IsFact(g) && SameRequest(f, g)
    ensures FactIdentity(f) == FactIdentity(g)
  {
    Keys();
    hide U, Wf;
    assert SameField(Lookup(f, KIND), Lookup(g, KIND)) && SameField(Lookup(f, ID), Lookup(g, ID));
    assert SameField(Lookup(f, PRIMITIVE_ID), Lookup(g, PRIMITIVE_ID))
           && SameField(Lookup(f, CALL_ID), Lookup(g, CALL_ID));
    IdentityDecides(f, g);
  }
}
