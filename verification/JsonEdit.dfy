/** Reading, assigning and deleting properties of JSON objects, and what canonical text sees of it. */
module JsonEdit {
  import opened Wrappers
  import opened JsText
  import opened JsonNumber
  import opened Json
  import opened JsonCanonical

  /** record[k] = v: in place when the key is there, last otherwise. */
  function Put(m: Members, k: Text, v: Json): Members {
    match m
    case MNil => MCons(k, v, MNil)
    case MCons(x, w, t) => if x == k then MCons(k, v, t) else MCons(x, w, Put(t, k, v))
  }

  function Lookup(j: Json, k: Text): Option<Json> {
    if j.JObj? && k in ToMap(j.members) then Some(ToMap(j.members)[k]) else None
  }

  lemma EmptyObject()
    ensures WfMembers(MNil) && ToMap(MNil) == map[]
  {
  }

  lemma FrontMember(k: Text, v: Json, m: Members)
    requires WfMembers(m) && Wf(v) && k !in ToMap(m)
    ensures WfMembers(MCons(k, v, m)) && Wf(JObj(MCons(k, v, m))) && ToMap(MCons(k, v, m)) == ToMap(m)[k := v]
  {
  }

  lemma {:induction false} PutMap(m: Members, k: Text, v: Json)
    requires WfMembers(m)
    ensures ToMap(Put(m, k, v)) == ToMap(m)[k := v]
    ensures Wf(v) ==> WfMembers(Put(m, k, v))
  {
    if m.MCons? {
      PutMap(m.tail, k, v);
      if m.key == k { assert ToMap(m)[k := v] == ToMap(m.tail)[k := v]; }
    }
  }

  lemma {:induction false} DeleteMap(m: Members, k: Text)
    requires WfMembers(m)
    ensures ToMap(Delete(m, k)) == ToMap(m) - {k} && WfMembers(Delete(m, k))
  {
    if m.MCons? { DeleteMap(m.tail, k); }
  }

  /** Objects are the same when they have the same keys with the same values. */
  lemma SameByKeys(a: Members, b: Members)
    requires WfMembers(a) && WfMembers(b)
    ensures Same(JObj(a), JObj(b)) <==>
              ToMap(a).Keys == ToMap(b).Keys && forall k :: k in ToMap(a) ==> Same(ToMap(a)[k], ToMap(b)[k])
  {
    SameMembersByKeys(a, ToMap(b));
    assert |ToMap(a).Keys| == |ToMap(a)| && |ToMap(b).Keys| == |ToMap(b)|;
    if Same(JObj(a), JObj(b)) { SameKeys(ToMap(a).Keys, ToMap(b).Keys); }
  }

  lemma {:induction false} SameMembersByKeys(a: Members, b: map<Text, Json>)
    requires WfMembers(a)
    ensures SameMembers(a, b) <==> forall k :: k in ToMap(a) ==> k in b && Same(ToMap(a)[k], b[k])
  {
    if a.MCons? {
      SameMembersByKeys(a.tail, b);
      assert ToMap(a)[a.key] == a.value;
      assert forall k :: k in ToMap(a.tail) ==> k in ToMap(a) && ToMap(a)[k] == ToMap(a.tail)[k];
    }
  }

  lemma SameRefl(j: Json)
    requires Wf(j)
    ensures Same(j, j)
  {
    CanonicalDecides(j, j);
  }

  lemma SameTrans(a: Json, b: Json, c: Json)
    requires Wf(a) && Wf(b) && Wf(c)
    ensures Same(a, b) ==> Same(b, a)
    ensures Same(a, b) && Same(b, c) ==> Same(a, c)
  {
    CanonicalDecides(a, b);
    CanonicalDecides(b, a);
    CanonicalDecides(b, c);
    CanonicalDecides(a, c);
  }

  /** Parsing canonical text keeps every property, up to key order inside its value. */
  lemma NormLookup(m: Members, k: Text)
    requires WfMembers(m)
    ensures WfMembers(NormMembers(m)) && (k in ToMap(NormMembers(m)) <==> k in ToMap(m))
    ensures k in ToMap(m) ==> Wf(ToMap(m)[k]) && ToMap(NormMembers(m))[k] == Norm(ToMap(m)[k])
  {
    NormMembersWf(m);
    NormMembersMap(m);
    if k in ToMap(m) { WfLookup(m, k); }
  }

  // Comparing objects field by field -----------------------------------------------------

  ghost predicate SameField(a: Option<Json>, b: Option<Json>) {
    a.Some? == b.Some? && (a.Some? ==> Same(a.value, b.value))
  }

  ghost function Get(m: map<Text, Json>, k: Text): Option<Json> { if k in m then Some(m[k]) else None }

  ghost predicate SameMaps(a: map<Text, Json>, b: map<Text, Json>) {
    a.Keys == b.Keys && forall k :: k in a ==> Same(a[k], b[k])
  }

  lemma SameMapsByField(a: map<Text, Json>, b: map<Text, Json>)
    ensures SameMaps(a, b) <==> forall k :: SameField(Get(a, k), Get(b, k))
  {
    hide Same;
    if forall k :: SameField(Get(a, k), Get(b, k)) {
      forall k ensures k in a.Keys <==> k in b.Keys { assert SameField(Get(a, k), Get(b, k)); }
      forall k | k in a ensures Same(a[k], b[k]) { assert SameField(Get(a, k), Get(b, k)); }
    }
  }

  /** Leaving key `c` out of both maps, and fixing key `s` to given values. */
  lemma SameBut(a: map<Text, Json>, b: map<Text, Json>, c: Text, s: Text, x: Json, y: Json)
    requires c != s
    ensures SameMaps((a - {c})[s := x], (b - {c})[s := y]) <==>
              Same(x, y) && forall k :: k != c && k != s ==> SameField(Get(a, k), Get(b, k))
    ensures SameMaps(a - {c}, b - {c}) <==> forall k :: k != c ==> SameField(Get(a, k), Get(b, k))
  {
    hide Same;
    var p, q := (a - {c})[s := x], (b - {c})[s := y];
    SameMapsByField(p, q);
    SameMapsByField(a - {c}, b - {c});
    hide SameMaps, SameField;
    assert Get(p, s) == Some(x) && Get(q, s) == Some(y) && Get(p, c) == None == Get(q, c);
    assert Get(a - {c}, c) == None == Get(b - {c}, c);
    assert forall k :: k != c && k != s ==> Get(p, k) == Get(a, k) && Get(q, k) == Get(b, k);
    assert forall k :: k != c ==> Get(a - {c}, k) == Get(a, k) && Get(b - {c}, k) == Get(b, k);
    SomeSame(x, y);
  }

  lemma SomeSame(x: Json, y: Json)
    ensures SameField(Some(x), Some(y)) <==> Same(x, y)
    ensures SameField(None, None)
  {
  }

  lemma LookupGet(j: Json)
    requires j.JObj?
    ensures forall k :: Lookup(j, k) == Get(ToMap(j.members), k)
  {
  }

  lemma NormField(m: Members, k: Text)
    requires WfMembers(m)
    ensures SameField(Lookup(Norm(JObj(m)), k), Lookup(JObj(m), k))
  {
    NormLookup(m, k);
    if k in ToMap(m) {
      var v := ToMap(m)[k];
      NormWf(v);
      CanonicalStable(v);
      SameTrans(v, Norm(v), v);
    }
  }

  lemma FieldRefl(j: Json, k: Text)
    requires j.JObj? && WfMembers(j.members)
    ensures SameField(Lookup(j, k), Lookup(j, k))
  {
    if k in ToMap(j.members) {
      WfLookup(j.members, k);
      SameRefl(ToMap(j.members)[k]);
    }
  }

  // Canonical text is well-formed UTF-16, so hashing its UTF-8 bytes loses nothing ---------

  lemma AsciiWellFormed(t: Text)
    requires forall i :: 0 <= i < |t| ==> t[i] < 0xD800
    ensures WellFormed(t)
  {
  }

  lemma Join2(a: Text, b: Text)
    requires WellFormed(a) && WellFormed(b)
    ensures WellFormed(a + b)
  {
    WellFormedConcat(a, b);
  }

  lemma EscapeWellFormed(s: Text, i: nat)
    requires i < |s| && !(0 < i && IsLow(s[i]) && IsHigh(s[i - 1])) && !(IsHigh(s[i]) && i + 1 < |s| && IsLow(s[i + 1]))
    ensures WellFormed(EscapeUnit(s, i))
  {
    AsciiWellFormed(HexEscape(s[i]));
  }

  lemma {:induction false} BodyWellFormed(s: Text, i: nat)
    requires i <= |s| && !(0 < i < |s| && IsLow(s[i]) && IsHigh(s[i - 1]))
    ensures WellFormed(StringBody(s, i))
    decreases |s| - i
  {
    hide ParseEscape, HexUnit;
    if i == |s| {
    } else if IsHigh(s[i]) && i + 1 < |s| && IsLow(s[i + 1]) {
      BodyWellFormed(s, i + 2);
      assert StringBody(s, i) == [s[i], s[i + 1]] + StringBody(s, i + 2);
      Join2([s[i], s[i + 1]], StringBody(s, i + 2));
    } else {
      BodyWellFormed(s, i + 1);
      EscapeWellFormed(s, i);
      Join2(EscapeUnit(s, i), StringBody(s, i + 1));
    }
  }

  lemma {:induction false} StringWellFormed(s: Text)
    ensures WellFormed(StringText(s))
  {
    BodyWellFormed(s, 0);
    assert WellFormed([QUOTE]);
    Join2([QUOTE], StringBody(s, 0));
    Join2([QUOTE] + StringBody(s, 0), [QUOTE]);
  }

  lemma {:induction false} WriteWellFormed(j: Json)
    ensures WellFormed(Write(j))
  {
    match j
    case JNum(n) => NumberUnits(n); AsciiWellFormed(NumText(n));
    case JStr(s) => StringWellFormed(s);
    case JArr(items) =>
      ItemsWellFormed(items);
      Join2([OPEN_ARRAY], ItemsText(items));
      Join2([OPEN_ARRAY] + ItemsText(items), [CLOSE_ARRAY]);
    case JObj(m) =>
      MembersWellFormed(m);
      Join2([OPEN_OBJECT], MembersText(m));
      Join2([OPEN_OBJECT] + MembersText(m), [CLOSE_OBJECT]);
    case _ => AsciiWellFormed(Write(j));
  }

  lemma {:induction false} ItemsWellFormed(items: Items)
    ensures WellFormed(ItemsText(items))
  {
    if items.ICons? {
      WriteWellFormed(items.head);
      ItemsWellFormed(items.tail);
      Join2([COMMA], ItemsText(items.tail));
      var rest := if items.tail.INil? then [] else [COMMA] + ItemsText(items.tail);
      Join2(Write(items.head), rest);
    }
  }

  lemma {:induction false} MembersWellFormed(m: Members)
    ensures WellFormed(MembersText(m))
  {
    if m.MCons? {
      StringWellFormed(m.key);
      WriteWellFormed(m.value);
      MembersWellFormed(m.tail);
      var rest := if m.tail.MNil? then [] else [COMMA] + MembersText(m.tail);
      Join2([COMMA], MembersText(m.tail));
      Join2(StringText(m.key), [COLON]);
      Join2(StringText(m.key) + [COLON], Write(m.value));
      Join2(StringText(m.key) + [COLON] + Write(m.value), rest);
    }
  }
}
