/** The object walks of canonicalRuntimeFactJson and captureNullMemJson over a JavaScript heap:
    objects refer to objects, structure may be shared, and cycles are possible. */
module ObjectGraph {
  import opened Wrappers
  import opened JsText
  import opened JsonNumber
  import opened Json
  import opened JsonCanonical

  datatype Value =
    | Null
    | Boolean(b: bool)
    | Number(n: ValidNum)     // finite
    | NotFinite               // NaN and the infinities
    | String(s: Text)
    | Undefined
    | Foreign                 // function, symbol, bigint
    | Ref(id: nat)

  /** An own property: plain data, or an accessor with the value its getter would give. */
  datatype Slot = Data(value: Value) | Accessor(got: Value)

  datatype Prop = Prop(key: Text, slot: Slot)
  datatype Field = Field(key: Text, value: Value)

  /** `elements[i]` is None for a hole; `extraKeys` counts enumerable keys that are no index;
      `plain` says the prototype is null or a root prototype. */
  datatype Node =
    | ArrayNode(elements: seq<Option<Slot>>, extraKeys: nat, symbols: bool)
    | ObjectNode(props: seq<Prop>, symbols: bool, plain: bool)

  type Graph = map<nat, Node>

  /** Strict is canonicalRuntimeFactJson; Lenient is the first walk of captureNullMemJson, which
      drops undefined properties and turns undefined elements and holes into null. */
  datatype Mode = Strict | Lenient

  // What a walk sees of one object ---------------------------------------------------------

  /** The values to visit, in order; no shape means the walk rejects the object itself. */
  datatype Shape = Elements(values: seq<Value>) | Fields(fields: seq<Field>)

  function ElementValue(mode: Mode, e: Option<Slot>): Option<Value> {
    match mode
    case Strict => Some(match e case None => Undefined case Some(Data(v)) => v case Some(Accessor(v)) => v)
    case Lenient =>
      match e
      case Some(Accessor(_)) => None
      case Some(Data(v)) => Some(if v.Undefined? then Null else v)
      case None => Some(Null)
  }

  function ElementValues(mode: Mode, es: seq<Option<Slot>>): (r: Option<seq<Value>>)
    ensures r.Some? ==> |r.value| == |es|
  {
    if es == [] then Some([])
    else
      var first, rest := ElementValue(mode, es[0]), ElementValues(mode, es[1..]);
      if first.None? || rest.None? then None else Some([first.value] + rest.value)
  }

  function FieldsOf(mode: Mode, props: seq<Prop>): (r: Option<seq<Field>>) {
    if props == [] then Some([])
    else
      var rest := FieldsOf(mode, props[1..]);
      if props[0].slot.Accessor? || rest.None? then None
      else if mode.Lenient? && props[0].slot.value.Undefined? then Some(rest.value)
      else Some([Field(props[0].key, props[0].slot.value)] + rest.value)
  }

  function Filled(es: seq<Option<Slot>>): nat {
    if es == [] then 0 else (if es[0].Some? then 1 else 0) + Filled(es[1..])
  }

  function ShapeOf(mode: Mode, node: Node): (r: Option<Shape>) {
    if node.symbols then None
    else match node
    case ArrayNode(es, extra, _) =>
      if (if mode.Strict? then Filled(es) + extra != |es| else extra != 0) then None
      else var vs := ElementValues(mode, es); if vs.None? then None else Some(Elements(vs.value))
    case ObjectNode(props, _, plain) =>
      if !plain then None
      else var fs := FieldsOf(mode, props); if fs.None? then None else Some(Fields(fs.value))
  }

  ghost function FilledPlaces(es: seq<Option<Slot>>, n: nat): set<nat>
    requires n <= |es|
  {
    set i | 0 <= i < n && es[i].Some?
  }

  lemma {:induction false} FilledCounts(es: seq<Option<Slot>>, n: nat)
    requires n <= |es|
    ensures Filled(es[..n]) == |FilledPlaces(es, n)|
  {
    if n > 0 {
      hide Filled, FilledPlaces;
      FilledCounts(es, n - 1);
      FilledAppend(es[..n - 1], es[n - 1]);
      assert es[..n] == es[..n - 1] + [es[n - 1]];
      OnePlaceMore(es, n - 1);
    }
  }

  lemma OnePlaceMore(es: seq<Option<Slot>>, n: nat)
    requires n < |es|
    ensures |FilledPlaces(es, n + 1)| == |FilledPlaces(es, n)| + (if es[n].Some? then 1 else 0)
  {
    assert FilledPlaces(es, n + 1) == FilledPlaces(es, n) + (if es[n].Some? then {n} else {});
  }

  lemma {:induction false} FilledAppend(es: seq<Option<Slot>>, e: Option<Slot>)
    ensures Filled(es + [e]) == Filled(es) + (if e.Some? then 1 else 0)
    decreases |es|
  {
    if es != [] {
      assert (es + [e])[1..] == es[1..] + [e];
      FilledAppend(es[1..], e);
    }
  }

  /** Which arrays a walk goes into: no symbols; as many own keys as elements, or no key that is not
      an index; and, for the lenient walk, no getter. It sees every element in its place, a hole as
      undefined or as null. */
  lemma ArrayShape(mode: Mode, es: seq<Option<Slot>>, extraKeys: nat, symbols: bool)
    ensures var r := ShapeOf(mode, ArrayNode(es, extraKeys, symbols));
            && (r.Some? <==>
                  && !symbols
                  && (mode.Strict? ==> |set i | 0 <= i < |es| && es[i].Some?| + extraKeys == |es|)
                  && (mode.Lenient? ==>
                        extraKeys == 0 && forall i :: 0 <= i < |es| && es[i].Some? ==> es[i].value.Data?))
            && (r.Some? ==>
                  && r.value.Elements? && |r.value.values| == |es|
                  && forall i :: 0 <= i < |es| ==>
                       r.value.values[i] ==
                       (if es[i].None? then (if mode.Strict? then Undefined else Null)
                        else if es[i].value.Accessor? then es[i].value.got
                        else if mode.Lenient? && es[i].value.value.Undefined? then Null
                        else es[i].value.value))
  {
    hide Filled, ElementValues;
    FilledCounts(es, |es|);
    assert es[..|es|] == es;
    ElementsSeen(mode, es);
  }

  lemma {:induction false} ElementsSeen(mode: Mode, es: seq<Option<Slot>>)
    ensures ElementValues(mode, es).Some? <==> forall i :: 0 <= i < |es| ==> ElementValue(mode, es[i]).Some?
    ensures ElementValues(mode, es).Some? ==>
              forall i :: 0 <= i < |es| ==> ElementValues(mode, es).value[i] == ElementValue(mode, es[i]).value
    decreases |es|
  {
    hide ElementValue;
    if es != [] {
      ElementsSeen(mode, es[1..]);
      assert forall i :: 0 < i < |es| ==> es[i] == es[1..][i - 1];
    }
  }

  /** Which objects it goes into: no symbols, no exotic prototype, no getter. It sees every property,
      but for the undefined ones that the lenient walk drops. */
  lemma ObjectShape(mode: Mode, props: seq<Prop>, symbols: bool, plain: bool)
    ensures var r := ShapeOf(mode, ObjectNode(props, symbols, plain));
            && (r.Some? <==> !symbols && plain && forall i :: 0 <= i < |props| ==> props[i].slot.Data?)
            && (r.Some? ==>
                  && r.value.Fields?
                  && forall k, v :: Field(k, v) in r.value.fields <==>
                       Prop(k, Data(v)) in props && !(mode.Lenient? && v.Undefined?))
  {
    FieldsSeen(mode, props);
  }

  lemma {:induction false} FieldsSeen(mode: Mode, props: seq<Prop>)
    ensures FieldsOf(mode, props).Some? <==> forall i :: 0 <= i < |props| ==> props[i].slot.Data?
    ensures FieldsOf(mode, props).Some? ==>
              forall k, v :: Field(k, v) in FieldsOf(mode, props).value <==>
                Prop(k, Data(v)) in props && !(mode.Lenient? && v.Undefined?)
    decreases |props|
  {
    if props != [] {
      var rest := props[1..];
      FieldsSeen(mode, rest);
      assert props == [props[0]] + rest;
      assert forall i :: 0 < i < |props| ==> props[i] == rest[i - 1];
    }
  }

  ghost predicate DistinctKeys(fields: seq<Field>) {
    forall i, j :: 0 <= i < j < |fields| ==> fields[i].key != fields[j].key
  }

  /** JavaScript objects have one property per key. */
  ghost predicate WfGraph(mode: Mode, g: Graph) {
    forall id :: id in g ==>
      var shape := ShapeOf(mode, g[id]); shape.Some? && shape.value.Fields? ==> DistinctKeys(shape.value.fields)
  }

  // The walk as a function: `seen` is the set of objects on the current path ------------------

  function Unfold(mode: Mode, g: Graph, v: Value, seen: set<nat>): (r: Option<Json>)
    decreases g.Keys - seen, 0, 0
  {
    match v
    case Null => Some(JNull)
    case Boolean(b) => Some(JBool(b))
    case Number(n) => Some(JNum(n))
    case String(s) => Some(JStr(s))
    case Ref(id) =>
      if id !in g || id in seen then None
      else
        assert id in g.Keys - seen;
        (match ShapeOf(mode, g[id])
         case None => None
         case Some(Elements(vs)) =>
           var items := UnfoldAll(mode, g, vs, seen + {id});
           if items.None? then None else Some(JArr(items.value))
         case Some(Fields(fs)) =>
           var members := UnfoldFields(mode, g, fs, seen + {id});
           if members.None? then None else Some(JObj(members.value)))
    case _ => None
  }

  function UnfoldAll(mode: Mode, g: Graph, vs: seq<Value>, seen: set<nat>): (r: Option<Items>)
    decreases g.Keys - seen, 1, |vs|
  {
    if vs == [] then Some(INil)
    else
      var h, t := Unfold(mode, g, vs[0], seen), UnfoldAll(mode, g, vs[1..], seen);
      if h.None? || t.None? then None else Some(ICons(h.value, t.value))
  }

  function UnfoldFields(mode: Mode, g: Graph, fs: seq<Field>, seen: set<nat>): (r: Option<Members>)
    decreases g.Keys - seen, 1, |fs|
  {
    if fs == [] then Some(MNil)
    else
      var h, t := Unfold(mode, g, fs[0].value, seen), UnfoldFields(mode, g, fs[1..], seen);
      if h.None? || t.None? then None else Some(MCons(fs[0].key, h.value, t.value))
  }

  // Acceptance, by paths through the heap -----------------------------------------------------

  /** The values the walk visits from `v`. */
  ghost function Kids(mode: Mode, g: Graph, v: Value): seq<Value> {
    if v.Ref? && v.id in g then
      match ShapeOf(mode, g[v.id])
      case None => []
      case Some(Elements(vs)) => vs
      case Some(Fields(fs)) => seq(|fs|, i requires 0 <= i < |fs| => fs[i].value)
    else []
  }

  /** A value no JSON text stands for, on its own account. */
  ghost predicate Faulty(mode: Mode, g: Graph, v: Value) {
    || v.NotFinite? || v.Undefined? || v.Foreign?
    || (v.Ref? && (v.id !in g || ShapeOf(mode, g[v.id]).None?))
  }

  ghost predicate IsPath(mode: Mode, g: Graph, p: seq<Value>) {
    p != [] && forall i :: 0 < i < |p| ==> p[i] in Kids(mode, g, p[i - 1])
  }

  /** No value on the path is faulty, and no object is met again or was on the path before. */
  ghost predicate Clean(mode: Mode, g: Graph, p: seq<Value>, seen: set<nat>) {
    && (forall i :: 0 <= i < |p| ==> !Faulty(mode, g, p[i]))
    && (forall i :: 0 <= i < |p| && p[i].Ref? ==> p[i].id !in seen)
    && (forall i, j :: 0 <= i < j < |p| && p[i].Ref? ==> p[i] != p[j])
  }

  lemma {:induction false} AllUnfold(mode: Mode, g: Graph, vs: seq<Value>, seen: set<nat>)
    ensures UnfoldAll(mode, g, vs, seen).Some? <==> forall v :: v in vs ==> Unfold(mode, g, v, seen).Some?
    decreases |vs|
  {
    if vs != [] {
      AllUnfold(mode, g, vs[1..], seen);
      assert UnfoldAll(mode, g, vs, seen).Some? <==>
        Unfold(mode, g, vs[0], seen).Some? && UnfoldAll(mode, g, vs[1..], seen).Some?;
      assert forall v :: v in vs <==> v == vs[0] || v in vs[1..];
    }
  }

  lemma {:induction false} AllFieldsUnfold(mode: Mode, g: Graph, fs: seq<Field>, seen: set<nat>)
    ensures UnfoldFields(mode, g, fs, seen).Some? <==> forall f :: f in fs ==> Unfold(mode, g, f.value, seen).Some?
    decreases |fs|
  {
    if fs != [] {
      AllFieldsUnfold(mode, g, fs[1..], seen);
      assert fs == [fs[0]] + fs[1..];
    }
  }

  lemma KidsOfFields(kids: seq<Value>, fs: seq<Field>)
    requires |kids| == |fs| && forall i :: 0 <= i < |fs| ==> kids[i] == fs[i].value
    ensures forall f :: f in fs ==> f.value in kids
    ensures forall k :: k in kids ==> exists f :: f in fs && f.value == k
  {
    forall k | k in kids ensures exists f :: f in fs && f.value == k {
      var i :| 0 <= i < |kids| && kids[i] == k;
      assert fs[i] in fs;
    }
  }

  /** One step: a value unfolds when it is not faulty, not on the path, and all its kids unfold. */
  lemma UnfoldStep(mode: Mode, g: Graph, v: Value, seen: set<nat>)
    ensures Unfold(mode, g, v, seen).Some? <==>
              && !Faulty(mode, g, v)
              && (v.Ref? ==> v.id !in seen && forall k :: k in Kids(mode, g, v) ==>
                    Unfold(mode, g, k, seen + {v.id}).Some?)
  {
    if v.Ref? && v.id in g && v.id !in seen {
      match ShapeOf(mode, g[v.id])
      case None =>
      case Some(Elements(vs)) => AllUnfold(mode, g, vs, seen + {v.id});
      case Some(Fields(fs)) =>
        AllFieldsUnfold(mode, g, fs, seen + {v.id});
        KidsOfFields(Kids(mode, g, v), fs);
    }
  }

  lemma {:induction false} AcceptedPathsClean(mode: Mode, g: Graph, p: seq<Value>, seen: set<nat>)
    requires IsPath(mode, g, p) && Unfold(mode, g, p[0], seen).Some?
    ensures Clean(mode, g, p, seen)
    decreases |p|
  {
    UnfoldStep(mode, g, p[0], seen);
    if |p| > 1 {
      var v, q := p[0], p[1..];
      assert p[1] in Kids(mode, g, p[0]);
      assert forall i :: 0 < i < |q| ==> q[i] == p[i + 1] && q[i - 1] == p[i];
      AcceptedPathsClean(mode, g, q, seen + {v.id});
      assert forall i :: 0 < i < |p| ==> p[i] == q[i - 1];
    }
  }

  /** A rejected value has a path that shows why. */
  lemma {:induction false} RejectionPath(mode: Mode, g: Graph, v: Value, seen: set<nat>) returns (p: seq<Value>)
    requires Unfold(mode, g, v, seen).None?
    ensures IsPath(mode, g, p) && p[0] == v && !Clean(mode, g, p, seen)
    decreases g.Keys - seen
  {
    UnfoldStep(mode, g, v, seen);
    if Faulty(mode, g, v) || v.id in seen {
      p := [v];
      assert p[0] == v;
    } else {
      var k :| k in Kids(mode, g, v) && Unfold(mode, g, k, seen + {v.id}).None?;
      assert v.id in g.Keys - seen;
      var q := RejectionPath(mode, g, k, seen + {v.id});
      p := [v] + q;
      assert forall i :: 0 < i < |p| ==> p[i] == q[i - 1];
      forall i | 0 < i < |p| ensures p[i] in Kids(mode, g, p[i - 1]) {
        if i > 1 { assert p[i - 1] == q[i - 2]; }
      }
      RejectionExtends(mode, g, v, q, seen);
    }
  }

  lemma RejectionExtends(mode: Mode, g: Graph, v: Value, q: seq<Value>, seen: set<nat>)
    requires v.Ref? && !Clean(mode, g, q, seen + {v.id})
    ensures !Clean(mode, g, [v] + q, seen)
  {
    var p := [v] + q;
    if Clean(mode, g, p, seen) {
      forall i | 0 <= i < |q| ensures !Faulty(mode, g, q[i]) && (q[i].Ref? ==> q[i].id !in seen + {v.id}) {
        assert p[i + 1] == q[i];
        assert p[0] != p[i + 1];
      }
      forall i, j | 0 <= i < j < |q| && q[i].Ref? ensures q[i] != q[j] {
        assert p[i + 1] != p[j + 1];
      }
    }
  }

  /** The walk accepts exactly when nothing reachable is faulty and no object reaches itself.
      Shared objects that lie on no cycle are accepted. */
  lemma AcceptsExactly(mode: Mode, g: Graph, v: Value)
    ensures Unfold(mode, g, v, {}).Some? <==>
              forall p :: IsPath(mode, g, p) && p[0] == v ==> Clean(mode, g, p, {})
  {
    if Unfold(mode, g, v, {}).Some? {
      forall p | IsPath(mode, g, p) && p[0] == v ensures Clean(mode, g, p, {}) {
        AcceptedPathsClean(mode, g, p, {});
      }
    } else {
      var p := RejectionPath(mode, g, v, {});
    }
  }

  // What is accepted is well formed --------------------------------------------------------------

  lemma {:induction false} UnfoldWf(mode: Mode, g: Graph, v: Value, seen: set<nat>)
    requires WfGraph(mode, g) && Unfold(mode, g, v, seen).Some?
    ensures Wf(Unfold(mode, g, v, seen).value)
    decreases g.Keys - seen, 0, 0
  {
    if v.Ref? {
      assert v.id in g.Keys - seen;
      match ShapeOf(mode, g[v.id])
      case Some(Elements(vs)) => UnfoldAllWf(mode, g, vs, seen + {v.id});
      case Some(Fields(fs)) => UnfoldFieldsWf(mode, g, fs, seen + {v.id});
    }
  }

  lemma {:induction false} UnfoldAllWf(mode: Mode, g: Graph, vs: seq<Value>, seen: set<nat>)
    requires WfGraph(mode, g) && UnfoldAll(mode, g, vs, seen).Some?
    ensures WfItems(UnfoldAll(mode, g, vs, seen).value)
    decreases g.Keys - seen, 1, |vs|
  {
    if vs != [] {
      UnfoldWf(mode, g, vs[0], seen);
      UnfoldAllWf(mode, g, vs[1..], seen);
    }
  }

  /** The members are the fields, whatever their order. */
  lemma {:induction false} UnfoldFieldsWf(mode: Mode, g: Graph, fs: seq<Field>, seen: set<nat>)
    requires WfGraph(mode, g) && DistinctKeys(fs) && UnfoldFields(mode, g, fs, seen).Some?
    ensures var m := ToMap(UnfoldFields(mode, g, fs, seen).value);
            && WfMembers(UnfoldFields(mode, g, fs, seen).value)
            && (forall f :: f in fs ==>
                  Unfold(mode, g, f.value, seen).Some? && f.key in m
                  && m[f.key] == Unfold(mode, g, f.value, seen).value)
            && (forall k :: k in m ==> exists f :: f in fs && f.key == k)
    decreases g.Keys - seen, 1, |fs|
  {
    hide WfGraph, Unfold, ShapeOf, DistinctKeys;
    if fs != [] {
      UnfoldWf(mode, g, fs[0].value, seen);
      KeysApart(fs);
      UnfoldFieldsWf(mode, g, fs[1..], seen);
      assert fs == [fs[0]] + fs[1..];
    }
  }

  lemma KeysApart(fs: seq<Field>)
    requires DistinctKeys(fs) && fs != []
    ensures DistinctKeys(fs[1..]) && forall f :: f in fs[1..] ==> f.key != fs[0].key
  {
  }

  // Sorting the keys of an object ---------------------------------------------------------------

  function InsertField(f: Field, fs: seq<Field>): (r: seq<Field>)
    ensures forall x :: x in r <==> x == f || x in fs
    decreases |fs|
  {
    if fs == [] || !KeyLess(fs[0].key, f.key) then [f] + fs
    else
      assert fs == [fs[0]] + fs[1..];
      [fs[0]] + InsertField(f, fs[1..])
  }

  /** Object.keys(input).sort() */
  function SortFields(fs: seq<Field>): (r: seq<Field>)
    ensures forall x :: x in r <==> x in fs
    decreases |fs|
  {
    if fs == [] then []
    else
      assert fs == [fs[0]] + fs[1..];
      InsertField(fs[0], SortFields(fs[1..]))
  }

  ghost predicate SortedFields(fs: seq<Field>) {
    forall i, j :: 0 <= i < j < |fs| ==> KeyLess(fs[i].key, fs[j].key)
  }

  lemma {:induction false} InsertFieldSorted(f: Field, fs: seq<Field>)
    requires SortedFields(fs) && forall x :: x in fs ==> x.key != f.key
    ensures SortedFields(InsertField(f, fs))
    decreases |fs|
  {
    if fs == [] {
    } else if KeyLess(fs[0].key, f.key) {
      InsertFieldSorted(f, fs[1..]);
      var rest := InsertField(f, fs[1..]);
      forall x | x in rest ensures KeyLess(fs[0].key, x.key) { }
    } else {
      KeyOrder(f.key, fs[0].key);
      forall i | 0 <= i < |fs| ensures KeyLess(f.key, fs[i].key) {
        if i > 0 { KeyTransitive(f.key, fs[0].key, fs[i].key); }
      }
    }
  }

  lemma {:induction false} SortFieldsSorted(fs: seq<Field>)
    requires DistinctKeys(fs)
    ensures SortedFields(SortFields(fs)) && DistinctKeys(SortFields(fs))
    decreases |fs|
  {
    if fs != [] {
      SortFieldsSorted(fs[1..]);
      assert forall x :: x in fs[1..] ==> x.key != fs[0].key;
      InsertFieldSorted(fs[0], SortFields(fs[1..]));
    }
    var r := SortFields(fs);
    forall i, j | 0 <= i < j < |r| ensures r[i].key != r[j].key { KeyOrder(r[i].key, r[j].key); }
  }

  /** Visiting the fields in sorted order gives the same canonical object. */
  lemma SortedVisit(g: Graph, fs: seq<Field>, seen: set<nat>)
    requires WfGraph(Strict, g) && DistinctKeys(fs)
    ensures UnfoldFields(Strict, g, SortFields(fs), seen).Some? <==> UnfoldFields(Strict, g, fs, seen).Some?
    ensures UnfoldFields(Strict, g, fs, seen).Some? ==>
              NormMembers(UnfoldFields(Strict, g, SortFields(fs), seen).value) ==
                NormMembers(UnfoldFields(Strict, g, fs, seen).value)
  {
    AllFieldsUnfold(Strict, g, fs, seen);
    AllFieldsUnfold(Strict, g, SortFields(fs), seen);
    SortFieldsSorted(fs);
    if UnfoldFields(Strict, g, fs, seen).Some? { SameFields(g, fs, SortFields(fs), seen); }
  }

  lemma SameFields(g: Graph, fs: seq<Field>, gs: seq<Field>, seen: set<nat>)
    requires WfGraph(Strict, g) && DistinctKeys(fs) && DistinctKeys(gs) && forall x :: x in fs <==> x in gs
    requires UnfoldFields(Strict, g, fs, seen).Some? && UnfoldFields(Strict, g, gs, seen).Some?
    ensures NormMembers(UnfoldFields(Strict, g, gs, seen).value) == NormMembers(UnfoldFields(Strict, g, fs, seen).value)
  {
    UnfoldFieldsWf(Strict, g, fs, seen);
    UnfoldFieldsWf(Strict, g, gs, seen);
    SameMap(UnfoldFields(Strict, g, fs, seen).value, UnfoldFields(Strict, g, gs, seen).value);
  }

  lemma SameMap(a: Members, b: Members)
    requires WfMembers(a) && WfMembers(b) && ToMap(a) == ToMap(b)
    ensures NormMembers(a) == NormMembers(b)
  {
    NormMembersMap(a);
    NormMembersMap(b);
    assert ToMap(NormMembers(a)) == ToMap(NormMembers(b));
    SortedUnique(NormMembers(a), NormMembers(b));
  }

  // Joining the pieces ----------------------------------------------------------------------------

  function Join(parts: seq<Text>): Text {
    if parts == [] then [] else if |parts| == 1 then parts[0] else parts[0] + ([COMMA] + Join(parts[1..]))
  }

  ghost predicate AreParts(g: Graph, vs: seq<Value>, seen: set<nat>, parts: seq<Text>) {
    |parts| == |vs| && forall i :: 0 <= i < |vs| ==>
      Unfold(Strict, g, vs[i], seen).Some? && parts[i] == Canonical(Unfold(Strict, g, vs[i], seen).value)
  }

  ghost predicate AreFieldParts(g: Graph, fs: seq<Field>, seen: set<nat>, parts: seq<Text>) {
    |parts| == |fs| && forall i :: 0 <= i < |fs| ==>
      Unfold(Strict, g, fs[i].value, seen).Some?
      && parts[i] == StringText(fs[i].key) + [COLON] + Canonical(Unfold(Strict, g, fs[i].value, seen).value)
  }

  lemma {:induction false} JoinItems(g: Graph, vs: seq<Value>, seen: set<nat>, parts: seq<Text>)
    requires AreParts(g, vs, seen, parts)
    ensures UnfoldAll(Strict, g, vs, seen).Some?
    ensures ItemsText(NormItems(UnfoldAll(Strict, g, vs, seen).value)) == Join(parts)
    decreases |vs|
  {
    if vs != [] {
      assert AreParts(g, vs[1..], seen, parts[1..]);
      JoinItems(g, vs[1..], seen, parts[1..]);
      if |vs| == 1 { assert parts[0] + [] == parts[0]; }
    }
  }

  lemma {:induction false} JoinFields(g: Graph, fs: seq<Field>, seen: set<nat>, parts: seq<Text>)
    requires WfGraph(Strict, g) && SortedFields(fs) && DistinctKeys(fs) && AreFieldParts(g, fs, seen, parts)
    ensures UnfoldFields(Strict, g, fs, seen).Some?
    ensures MembersText(NormMembers(UnfoldFields(Strict, g, fs, seen).value)) == Join(parts)
    decreases |fs|
  {
    if fs != [] {
      var rest := fs[1..];
      assert AreFieldParts(g, rest, seen, parts[1..]);
      JoinFields(g, rest, seen, parts[1..]);
      var key, v, t := fs[0].key, Norm(Unfold(Strict, g, fs[0].value, seen).value),
        NormMembers(UnfoldFields(Strict, g, rest, seen).value);
      FrontInsert(g, fs, seen);
      var rest_ := if t.MNil? then [] else [COMMA] + MembersText(t);
      assert MembersText(MCons(key, v, t)) == StringText(key) + [COLON] + Write(v) + rest_;
      if |fs| == 1 { assert parts[0] + [] == parts[0]; }
    }
  }

  lemma {:induction false} FrontInsert(g: Graph, fs: seq<Field>, seen: set<nat>)
    requires WfGraph(Strict, g) && SortedFields(fs) && DistinctKeys(fs) && fs != []
    requires UnfoldFields(Strict, g, fs, seen).Some?
    ensures var rest := UnfoldFields(Strict, g, fs[1..], seen);
            && rest.Some? && (NormMembers(rest.value).MNil? <==> |fs| == 1)
            && NormMembers(UnfoldFields(Strict, g, fs, seen).value)
               == MCons(fs[0].key, Norm(Unfold(Strict, g, fs[0].value, seen).value), NormMembers(rest.value))
  {
    var t := NormMembers(UnfoldFields(Strict, g, fs[1..], seen).value);
    UnfoldFieldsWf(Strict, g, fs[1..], seen);
    EmptyMap(t);
    if |fs| > 1 { assert fs[1] in fs[1..]; }
    if t.MCons? {
      assert t.key in ToMap(t);
      var f :| f in fs[1..] && f.key == t.key;
      KeyOrder(fs[0].key, t.key);
    }
  }

  lemma ElementFails(g: Graph, vs: seq<Value>, seen: set<nat>, i: nat)
    requires i < |vs| && Unfold(Strict, g, vs[i], seen).None?
    ensures UnfoldAll(Strict, g, vs, seen).None?
  {
    AllUnfold(Strict, g, vs, seen);
  }

  lemma FieldFails(g: Graph, fs: seq<Field>, seen: set<nat>, i: nat)
    requires i < |fs| && Unfold(Strict, g, fs[i].value, seen).None?
    ensures UnfoldFields(Strict, g, fs, seen).None?
  {
    AllFieldsUnfold(Strict, g, fs, seen);
  }

  lemma NotCanonical(g: Graph, v: Value, seen: set<nat>)
    requires CanonicalOf(g, v, seen).None?
    ensures Unfold(Strict, g, v, seen).None?
  {
  }

  lemma NoParts(g: Graph, seen: set<nat>)
    ensures AreParts(g, [], seen, []) && AreFieldParts(g, [], seen, [])
  {
  }

  lemma MorePart(g: Graph, vs: seq<Value>, seen: set<nat>, parts: seq<Text>, i: nat, part: Text)
    requires i < |vs| && AreParts(g, vs[..i], seen, parts) && CanonicalOf(g, vs[i], seen) == Some(part)
    ensures AreParts(g, vs[..i + 1], seen, parts + [part])
  {
    hide Canonical, Unfold;
    var a, b := vs[..i], vs[..i + 1];
    assert b[i] == vs[i] && forall k :: 0 <= k < i ==> a[k] == b[k];
  }

  lemma MoreFieldPart(g: Graph, fs: seq<Field>, seen: set<nat>, parts: seq<Text>, i: nat, part: Text)
    requires i < |fs| && AreFieldParts(g, fs[..i], seen, parts) && CanonicalOf(g, fs[i].value, seen) == Some(part)
    ensures AreFieldParts(g, fs[..i + 1], seen, parts + [StringText(fs[i].key) + [COLON] + part])
  {
    hide Canonical, Unfold, StringText;
    var a, b := fs[..i], fs[..i + 1];
    assert b[i] == fs[i] && forall k :: 0 <= k < i ==> a[k] == b[k];
  }

  lemma ItemsJoined(g: Graph, vs: seq<Value>, seen: set<nat>, parts: seq<Text>)
    requires AreParts(g, vs, seen, parts)
    ensures UnfoldAll(Strict, g, vs, seen).Some?
    ensures Canonical(JArr(UnfoldAll(Strict, g, vs, seen).value)) == [OPEN_ARRAY] + Join(parts) + [CLOSE_ARRAY]
  {
    hide AreParts, UnfoldAll, Join;
    JoinItems(g, vs, seen, parts);
  }

  lemma FieldsText(g: Graph, fs: seq<Field>, seen: set<nat>, parts: seq<Text>)
    requires WfGraph(Strict, g) && SortedFields(fs) && DistinctKeys(fs) && AreFieldParts(g, fs, seen, parts)
    ensures UnfoldFields(Strict, g, fs, seen).Some?
    ensures Canonical(JObj(UnfoldFields(Strict, g, fs, seen).value)) == [OPEN_OBJECT] + Join(parts) + [CLOSE_OBJECT]
  {
    hide WfGraph, SortedFields, DistinctKeys, AreFieldParts, UnfoldFields, Join;
    JoinFields(g, fs, seen, parts);
  }

  lemma SortedText(g: Graph, fs: seq<Field>, seen: set<nat>)
    requires WfGraph(Strict, g) && DistinctKeys(fs)
    ensures UnfoldFields(Strict, g, SortFields(fs), seen).Some? <==> UnfoldFields(Strict, g, fs, seen).Some?
    ensures UnfoldFields(Strict, g, fs, seen).Some? ==>
              Canonical(JObj(UnfoldFields(Strict, g, SortFields(fs), seen).value)) ==
                Canonical(JObj(UnfoldFields(Strict, g, fs, seen).value))
  {
    hide WfGraph, DistinctKeys, UnfoldFields, SortFields;
    SortedVisit(g, fs, seen);
  }

  lemma GraphKeys(g: Graph, id: nat, fs: seq<Field>)
    requires WfGraph(Strict, g) && id in g && ShapeOf(Strict, g[id]) == Some(Fields(fs))
    ensures DistinctKeys(fs)
  {
  }

  /** One step of the walk: leaves print themselves, an object prints its contents. */
  lemma CanonicalStep(g: Graph, v: Value, seen: set<nat>)
    ensures v.Null? ==> CanonicalOf(g, v, seen) == Some(U("null"))
    ensures v.Boolean? ==> CanonicalOf(g, v, seen) == Some(if v.b then U("true") else U("false"))
    ensures v.Number? ==> CanonicalOf(g, v, seen) == Some(NumText(v.n))
    ensures v.String? ==> CanonicalOf(g, v, seen) == Some(StringText(v.s))
    ensures v.NotFinite? || v.Undefined? || v.Foreign? ==> CanonicalOf(g, v, seen) == None
    ensures v.Ref? && (v.id !in g || v.id in seen || ShapeOf(Strict, g[v.id]).None?) ==> CanonicalOf(g, v, seen) == None
    ensures v.Ref? && v.id in g && v.id !in seen && ShapeOf(Strict, g[v.id]).Some? ==>
              var shape := ShapeOf(Strict, g[v.id]).value;
              if shape.Elements? then
                var items := UnfoldAll(Strict, g, shape.values, seen + {v.id});
                CanonicalOf(g, v, seen) == if items.None? then None else Some(Canonical(JArr(items.value)))
              else
                var members := UnfoldFields(Strict, g, shape.fields, seen + {v.id});
                CanonicalOf(g, v, seen) == if members.None? then None else Some(Canonical(JObj(members.value)))
  {
    hide UnfoldAll, UnfoldFields, U, StringText;
    if v.Number? { FoldText(v.n); }
  }

  /** canonicalRuntimeFactJson as written: a mutable set of the objects on the path, entered before
      an object's contents are visited and left on every way out. */
  class Walker {
    const g: Graph
    var seen: set<nat>

    constructor (g: Graph)
      ensures this.g == g && seen == {}
    {
      this.g := g;
      seen := {};
    }

    method Visit(v: Value) returns (r: Option<Text>)
      requires WfGraph(Strict, g)
      modifies this
      ensures seen == old(seen)
      ensures r == CanonicalOf(g, v, old(seen))
      decreases g.Keys - seen, 0
    {
      hide CanonicalOf, Canonical, UnfoldAll, UnfoldFields, WfGraph, U, NumText, StringText, SortFields;
      CanonicalStep(g, v, seen);
      match v {
        case Null => r := Some(U("null"));
        case Boolean(b) => r := Some(if b then U("true") else U("false"));
        case Number(n) => r := Some(NumText(n));
        case String(s) => r := Some(StringText(s));
        case Ref(id) =>
          if id !in g || id in seen { return None; }
          ghost var before := seen;
          assert id in g.Keys - seen;
          seen := seen + {id};
          var shape := ShapeOf(Strict, g[id]);
          match shape {
            case None => r := None;
            case Some(Elements(vs)) => r := VisitElements(vs);
            case Some(Fields(fs)) =>
              GraphKeys(g, id, fs);
              SortFieldsSorted(fs);
              r := VisitFields(SortFields(fs));
              SortedText(g, fs, before + {id});
          }
          seen := seen - {id};
          assert seen == before;
        case _ => r := None;
      }
    }

    method VisitElements(vs: seq<Value>) returns (r: Option<Text>)
      requires WfGraph(Strict, g)
      modifies this
      ensures seen == old(seen)
      ensures r.Some? <==> UnfoldAll(Strict, g, vs, old(seen)).Some?
      ensures r.Some? ==> r.value == Canonical(JArr(UnfoldAll(Strict, g, vs, old(seen)).value))
      decreases g.Keys - seen, 1
    {
      hide CanonicalOf, Canonical, UnfoldAll, WfGraph, Join, AreParts;
      var parts := [];
      NoParts(g, seen);
      for i := 0 to |vs|
        invariant seen == old(seen)
        invariant AreParts(g, vs[..i], seen, parts)
      {
        var part := Visit(vs[i]);
        if part.None? {
          NotCanonical(g, vs[i], seen);
          ElementFails(g, vs, seen, i);
          return None;
        }
        MorePart(g, vs, seen, parts, i, part.value);
        parts := parts + [part.value];
      }
      assert vs[..|vs|] == vs;
      ItemsJoined(g, vs, seen, parts);
      r := Some([OPEN_ARRAY] + Join(parts) + [CLOSE_ARRAY]);
    }

    method VisitFields(fs: seq<Field>) returns (r: Option<Text>)
      requires WfGraph(Strict, g) && DistinctKeys(fs) && SortedFields(fs)
      modifies this
      ensures seen == old(seen)
      ensures r.Some? <==> UnfoldFields(Strict, g, fs, old(seen)).Some?
      ensures r.Some? ==> r.value == Canonical(JObj(UnfoldFields(Strict, g, fs, old(seen)).value))
      decreases g.Keys - seen, 1
    {
      hide CanonicalOf, Canonical, UnfoldFields, WfGraph, SortedFields, DistinctKeys, StringText, Join, AreFieldParts;
      var parts := [];
      NoParts(g, seen);
      for i := 0 to |fs|
        invariant seen == old(seen)
        invariant AreFieldParts(g, fs[..i], seen, parts)
      {
        var part := Visit(fs[i].value);
        if part.None? {
          NotCanonical(g, fs[i].value, seen);
          FieldFails(g, fs, seen, i);
          return None;
        }
        MoreFieldPart(g, fs, seen, parts, i, part.value);
        parts := parts + [StringText(fs[i].key) + [COLON] + part.value];
      }
      assert fs[..|fs|] == fs;
      FieldsText(g, fs, seen, parts);
      r := Some([OPEN_OBJECT] + Join(parts) + [CLOSE_OBJECT]);
    }
  }

  /** The canonical text of the tree a value unfolds to, if it does. */
  ghost function CanonicalOf(g: Graph, v: Value, seen: set<nat>): Option<Text> {
    var j := Unfold(Strict, g, v, seen);
    if j.None? then None else Some(Canonical(j.value))
  }

  lemma FoldText(n: Num)
    requires Valid(n)
    ensures NumText(Fold(n)) == NumText(n)
  {
  }

  /** captureNullMemJson: the lenient walk, then the canonical text of what it built. */
  function Capture(g: Graph, v: Value): Option<Text> {
    var j := Unfold(Lenient, g, v, {});
    if j.None? then None else Some(Canonical(j.value))
  }
}
