/** The hashed identity of an event tells events apart: its canonical JSON text is one to one. */
module EventIdentity {
  import opened Wrappers
  import opened JsText
  import opened Json
  import opened JsonCanonical
  import opened JsonEdit
  import opened BranchState
  import TextDiff

  ghost predicate WfOpt(v: Option<Json>) { v.Some? ==> Wf(v.value) }

  /** Objects with one more optional property agree when they agree on it and on the rest. */
  lemma OptDecides(k: Text, v: Option<Json>, w: Option<Json>, m: Members, n: Members)
    requires WfMembers(m) && WfMembers(n) && k !in ToMap(m) && k !in ToMap(n) && WfOpt(v) && WfOpt(w)
    ensures WfMembers(Opt(k, v, m)) && WfMembers(Opt(k, w, n))
    ensures ToMap(Opt(k, v, m)).Keys <= ToMap(m).Keys + {k} && ToMap(Opt(k, w, n)).Keys <= ToMap(n).Keys + {k}
    ensures Same(JObj(Opt(k, v, m)), JObj(Opt(k, w, n))) <==> SameField(v, w) && Same(JObj(m), JObj(n))
  {
    hide Same, Wf, WfMembers, ToMap;
    if v.Some? { FrontMember(k, v.value, m); }
    if w.Some? { FrontMember(k, w.value, n); }
    var a, b := Opt(k, v, m), Opt(k, w, n);
    SameByKeys(a, b);
    SameByKeys(m, n);
    var x, y, p, q := ToMap(a), ToMap(b), ToMap(m), ToMap(n);
    assert x == if v.Some? then p[k := v.value] else p;
    assert y == if w.Some? then q[k := w.value] else q;
    OptMaps(k, v, w, p, q, x, y);
  }

  lemma OptMaps(k: Text, v: Option<Json>, w: Option<Json>, p: map<Text, Json>, q: map<Text, Json>, x: map<Text, Json>,
                y: map<Text, Json>)
    requires k !in p && k !in q
    requires x == (if v.Some? then p[k := v.value] else p) && y == (if w.Some? then q[k := w.value] else q)
    ensures SameMaps(x, y) <==> SameField(v, w) && SameMaps(p, q)
  {
    hide Same;
    SameMapsByField(x, y);
    SameMapsByField(p, q);
    hide SameMaps, SameField;
    assert Get(x, k) == v && Get(y, k) == w && Get(p, k) == None == Get(q, k);
    assert forall j :: j != k ==> Get(x, j) == Get(p, j) && Get(y, j) == Get(q, j);
    SomeSame(JNull, JNull);
  }

  lemma ScalarsDecide(s: Text, t: Text, m: int, n: int)
    ensures Same(JStr(s), JStr(t)) <==> s == t
    ensures Same(IntJson(m), IntJson(n)) <==> m == n
    ensures Wf(JStr(s)) && Wf(IntJson(m))
  {
    IntJsonDecides(m, n);
    IntJsonDecides(n, m);
  }

  lemma OptScalars(s: Option<Text>, t: Option<Text>, m: Option<int>, n: Option<int>)
    ensures SameField(OptText(s), OptText(t)) <==> s == t
    ensures SameField(OptInt(m), OptInt(n)) <==> m == n
    ensures WfOpt(OptText(s)) && WfOpt(OptInt(m))
  {
    hide Same, Wf, IntJson;
    if s.Some? && t.Some? { ScalarsDecide(s.value, t.value, 0, 0); }
    if m.Some? && n.Some? { ScalarsDecide([], [], m.value, n.value); }
    if s.Some? { ScalarsDecide(s.value, s.value, 0, 0); }
    if m.Some? { ScalarsDecide([], [], m.value, m.value); }
  }

  lemma EmptySame()
    ensures WfMembers(MNil) && ToMap(MNil) == map[] && Same(JObj(MNil), JObj(MNil))
  {
  }

  lemma RangeDecides(r: TextDiff.Range, s: TextDiff.Range)
    ensures Wf(RangeJson(r)) && (Same(RangeJson(r), RangeJson(s)) <==> r == s)
  {
    assert |U("start")| == 5 && |U("end")| == 3;
    RangeSame(r, s, U("start"), U("end"));
  }

  lemma RangeSame(r: TextDiff.Range, s: TextDiff.Range, k: Text, l: Text)
    requires k != l
    ensures var a := JObj(Opt(k, Some(IntJson(r.start)), Opt(l, Some(IntJson(r.end)), MNil)));
            var b := JObj(Opt(k, Some(IntJson(s.start)), Opt(l, Some(IntJson(s.end)), MNil)));
            Wf(a) && (Same(a, b) <==> r == s)
  {
    hide Same, WfMembers, ToMap, IntJson, Opt;
    EmptySame();
    OptScalars(None, None, Some(r.start), Some(s.start));
    OptScalars(None, None, Some(r.end), Some(s.end));
    OptScalars(None, None, Some(s.start), Some(r.start));
    OptScalars(None, None, Some(s.end), Some(r.end));
    OptDecides(l, Some(IntJson(r.end)), Some(IntJson(s.end)), MNil, MNil);
    var m, n := Opt(l, Some(IntJson(r.end)), MNil), Opt(l, Some(IntJson(s.end)), MNil);
    OptDecides(k, Some(IntJson(r.start)), Some(IntJson(s.start)), m, n);
  }

  lemma OpKeys()
    ensures var o, d, r := U("op"), U("data"), U("range"); o != d && o != r && d != r
    ensures var t, s, e, x, n := U("type"), U("start"), U("end"), U("text"), U("native");
            t != s && t != e && t != x && t != n && s != e && s != x && s != n && e != x && e != n && x != n
    ensures U("insert") != U("delete")
  {
    assert |U("op")| == 2 && |U("data")| == 4 && |U("range")| == 5;
    assert |U("type")| == 4 && |U("start")| == 5 && |U("end")| == 3 && |U("text")| == 4 && |U("native")| == 6;
    assert U("type")[1] == 121 && U("text")[1] == 101 && U("insert")[0] == 105 && U("delete")[0] == 100;
  }

  lemma NativeDecides(a: NativeOp, b: NativeOp)
    ensures Wf(NativeJson(a)) && (Same(NativeJson(a), NativeJson(b)) <==> a == b)
  {
    hide U, Same, WfMembers, ToMap, IntJson, Opt, RangeJson;
    OpKeys();
    EmptySame();
    NativeParts(a, b);
    NativeParts(b, a);
    var x := if a.range.Some? then Some(RangeJson(a.range.value)) else None;
    var y := if b.range.Some? then Some(RangeJson(b.range.value)) else None;
    OptDecides(U("range"), x, y, MNil, MNil);
    var m, n := Opt(U("range"), x, MNil), Opt(U("range"), y, MNil);
    OptDecides(U("data"), Some(JStr(a.data)), Some(JStr(b.data)), m, n);
    var p, q := Opt(U("data"), Some(JStr(a.data)), m), Opt(U("data"), Some(JStr(b.data)), n);
    OptDecides(U("op"), Some(IntJson(OpCode(a.op))), Some(IntJson(OpCode(b.op))), p, q);
  }

  lemma NativeParts(a: NativeOp, b: NativeOp)
    ensures SameField(Some(JStr(a.data)), Some(JStr(b.data))) <==> a.data == b.data
    ensures SameField(Some(IntJson(OpCode(a.op))), Some(IntJson(OpCode(b.op)))) <==> a.op == b.op
    ensures WfOpt(Some(JStr(a.data))) && WfOpt(Some(IntJson(OpCode(a.op))))
    ensures var x := if a.range.Some? then Some(RangeJson(a.range.value)) else None;
            var y := if b.range.Some? then Some(RangeJson(b.range.value)) else None;
            WfOpt(x) && (SameField(x, y) <==> a.range == b.range)
  {
    hide Same, Wf, IntJson, RangeJson;
    OptScalars(Some(a.data), Some(b.data), Some(OpCode(a.op)), Some(OpCode(b.op)));
    if a.range.Some? && b.range.Some? { RangeDecides(a.range.value, b.range.value); }
    if a.range.Some? { RangeDecides(a.range.value, a.range.value); }
  }

  lemma OpParts(a: WireOp, b: WireOp)
    ensures WfOpt(TypeJson(a.insert)) && (SameField(TypeJson(a.insert), TypeJson(b.insert)) <==> a.insert == b.insert)
    ensures WfOpt(OptInt(a.start)) && (SameField(OptInt(a.start), OptInt(b.start)) <==> a.start == b.start)
    ensures WfOpt(OptInt(a.end)) && (SameField(OptInt(a.end), OptInt(b.end)) <==> a.end == b.end)
    ensures WfOpt(OptText(a.text)) && (SameField(OptText(a.text), OptText(b.text)) <==> a.text == b.text)
    ensures var x := OptNative(a.native);
            var y := OptNative(b.native);
            WfOpt(x) && (SameField(x, y) <==> a.native == b.native)
  {
    hide U, Same, Wf, IntJson, NativeJson, OptInt, OptText;
    OpKeys();
    OptScalars(a.text, b.text, a.start, b.start);
    OptScalars(a.text, b.text, a.end, b.end);
    var x := if a.insert == Some(true) then U("insert") else U("delete");
    var y := if b.insert == Some(true) then U("insert") else U("delete");
    ScalarsDecide(x, y, 0, 0);
    if a.native.Some? { NativeDecides(a.native.value, if b.native.Some? then b.native.value else a.native.value); }
  }

  lemma OpDecides(a: WireOp, b: WireOp)
    ensures Wf(OpJson(a)) && (Same(OpJson(a), OpJson(b)) <==> a == b)
  {
    hide U, Same, WfMembers, ToMap, Opt, NativeJson, TypeJson, OptInt, OptText, SameField;
    OpKeys();
    EmptySame();
    OpParts(a, b);
    OpParts(b, a);
    var x := OptNative(a.native);
    var y := OptNative(b.native);
    OptDecides(U("native"), x, y, MNil, MNil);
    var m, n := Opt(U("native"), x, MNil), Opt(U("native"), y, MNil);
    OptDecides(U("text"), OptText(a.text), OptText(b.text), m, n);
    m, n := Opt(U("text"), OptText(a.text), m), Opt(U("text"), OptText(b.text), n);
    OptDecides(U("end"), OptInt(a.end), OptInt(b.end), m, n);
    m, n := Opt(U("end"), OptInt(a.end), m), Opt(U("end"), OptInt(b.end), n);
    OptDecides(U("start"), OptInt(a.start), OptInt(b.start), m, n);
    m, n := Opt(U("start"), OptInt(a.start), m), Opt(U("start"), OptInt(b.start), n);
    OptDecides(U("type"), TypeJson(a.insert), TypeJson(b.insert), m, n);
  }

  lemma {:induction false} OpsDecide(a: seq<WireOp>, b: seq<WireOp>)
    ensures WfItems(OpsJson(a)) && (SameItems(OpsJson(a), OpsJson(b)) <==> a == b)
    decreases |a|
  {
    hide OpJson;
    if a != [] {
      OpsDecide(a[1..], if b != [] then b[1..] else []);
      OpDecides(a[0], if b != [] then b[0] else a[0]);
      assert a == [a[0]] + a[1..] && (b == [] || b == [b[0]] + b[1..]);
    }
  }

  lemma EventKeys()
    ensures var e, d, s, c, o, m := U("eventId"), U("dropId"), U("sourceClientId"), U("createdAt"), U("ops"),
      U("metadata");
            && e != d && e != s && e != c && e != o && e != m && d != s && d != c && d != o && d != m
            && s != c && s != o && s != m && c != o && c != m && o != m
  {
    assert |U("eventId")| == 7 && |U("dropId")| == 6 && |U("sourceClientId")| == 14 && |U("createdAt")| == 9;
    assert |U("ops")| == 3 && |U("metadata")| == 8;
  }

  lemma EventParts(a: Event, b: Event)
    ensures WfOpt(Some(JStr(a.eventId)))
            && (SameField(Some(JStr(a.eventId)), Some(JStr(b.eventId))) <==> a.eventId == b.eventId)
    ensures WfOpt(Some(JStr(a.dropId)))
            && (SameField(Some(JStr(a.dropId)), Some(JStr(b.dropId))) <==> a.dropId == b.dropId)
    ensures WfOpt(Some(JStr(a.sourceClientId)))
    ensures SameField(Some(JStr(a.sourceClientId)), Some(JStr(b.sourceClientId))) <==>
              a.sourceClientId == b.sourceClientId
    ensures WfOpt(Some(IntJson(a.createdAt)))
            && (SameField(Some(IntJson(a.createdAt)), Some(IntJson(b.createdAt))) <==> a.createdAt == b.createdAt)
    ensures WfOpt(Some(JArr(OpsJson(a.ops))))
            && (SameField(Some(JArr(OpsJson(a.ops))), Some(JArr(OpsJson(b.ops)))) <==> a.ops == b.ops)
  {
    hide IntJson;
    ScalarsDecide(a.eventId, b.eventId, a.createdAt, b.createdAt);
    ScalarsDecide(a.dropId, b.dropId, 0, 0);
    ScalarsDecide(a.sourceClientId, b.sourceClientId, 0, 0);
    OpsDecide(a.ops, b.ops);
  }

  lemma EventDecides(a: Event, b: Event)
    requires WfEvent(a) && WfEvent(b)
    ensures Wf(EventJson(a)) && (Same(EventJson(a), EventJson(b)) <==> SameIntent(a, b))
  {
    hide U, Same, WfMembers, ToMap, IntJson, Opt, OpsJson, SameField;
    EventKeys();
    EmptySame();
    EventParts(a, b);
    EventParts(b, a);
    OptDecides(U("metadata"), a.metadata, b.metadata, MNil, MNil);
    var m, n := Opt(U("metadata"), a.metadata, MNil), Opt(U("metadata"), b.metadata, MNil);
    OptDecides(U("ops"), Some(JArr(OpsJson(a.ops))), Some(JArr(OpsJson(b.ops))), m, n);
    m, n := Opt(U("ops"), Some(JArr(OpsJson(a.ops))), m), Opt(U("ops"), Some(JArr(OpsJson(b.ops))), n);
    OptDecides(U("createdAt"), Some(IntJson(a.createdAt)), Some(IntJson(b.createdAt)), m, n);
    m, n := Opt(U("createdAt"), Some(IntJson(a.createdAt)), m), Opt(U("createdAt"), Some(IntJson(b.createdAt)), n);
    OptDecides(U("sourceClientId"), Some(JStr(a.sourceClientId)), Some(JStr(b.sourceClientId)), m, n);
    m := Opt(U("sourceClientId"), Some(JStr(a.sourceClientId)), m);
    n := Opt(U("sourceClientId"), Some(JStr(b.sourceClientId)), n);
    OptDecides(U("dropId"), Some(JStr(a.dropId)), Some(JStr(b.dropId)), m, n);
    m, n := Opt(U("dropId"), Some(JStr(a.dropId)), m), Opt(U("dropId"), Some(JStr(b.dropId)), n);
    OptDecides(U("eventId"), Some(JStr(a.eventId)), Some(JStr(b.eventId)), m, n);
  }

  /** Payload hashes are equal exactly when the events are the same as their writer sees them. */
  lemma PayloadHashDecides(a: Event, b: Event)
    requires WfEvent(a) && WfEvent(b)
    ensures PayloadHash(a) == PayloadHash(b) <==> SameIntent(a, b)
  {
    hide Same, Wf, EventJson, SameIntent, DomainHash, Norm;
    EventDecides(a, b);
    EventDecides(b, a);
    CanonicalDecides(EventJson(a), EventJson(b));
    WriteWellFormed(Norm(EventJson(a)));
    WriteWellFormed(Norm(EventJson(b)));
    AsciiWellFormed(U("nulldown.branch-event.v1"));
    DomainHashDecides("nulldown.branch-event.v1", Canonical(EventJson(a)), Canonical(EventJson(b)));
  }
}
