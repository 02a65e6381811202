/** A heap that holds a given JSON value, as JSON.parse allocates one, and capturing it again. */
module JsonHeap {
  import opened Wrappers
  import opened Json
  import opened JsonCanonical
  import opened ObjectGraph

  datatype Built<T> = Built(root: T, heap: Graph, next: nat)

  /** One object per array and object of the value, numbered from `lo` on. */
  function Build(j: Json, lo: nat): Built<Value>
    requires Wf(j)
  {
    match j
    case JNull => Built(Null, map[], lo)
    case JBool(b) => Built(Boolean(b), map[], lo)
    case JNum(n) => Built(Number(n), map[], lo)
    case JStr(s) => Built(String(s), map[], lo)
    case JArr(items) =>
      var r := BuildItems(items, lo + 1);
      Built(Ref(lo), r.heap[lo := ArrayNode(Slots(r.root), 0, false)], r.next)
    case JObj(m) =>
      var r := BuildMembers(m, lo + 1);
      Built(Ref(lo), r.heap[lo := ObjectNode(Props(r.root), false, true)], r.next)
  }

  function BuildItems(items: Items, lo: nat): Built<seq<Value>>
    requires WfItems(items)
  {
    match items
    case INil => Built([], map[], lo)
    case ICons(h, t) =>
      var first := Build(h, lo);
      var rest := BuildItems(t, first.next);
      Built([first.root] + rest.root, first.heap + rest.heap, rest.next)
  }

  function BuildMembers(m: Members, lo: nat): Built<seq<Field>>
    requires WfMembers(m)
  {
    match m
    case MNil => Built([], map[], lo)
    case MCons(k, v, t) =>
      var first := Build(v, lo);
      var rest := BuildMembers(t, first.next);
      Built([Field(k, first.root)] + rest.root, first.heap + rest.heap, rest.next)
  }

  function Slots(vs: seq<Value>): (r: seq<Option<Slot>>)
    ensures |r| == |vs|
  {
    seq(|vs|, i requires 0 <= i < |vs| => Some(Data(vs[i])))
  }

  function Props(fs: seq<Field>): (r: seq<Prop>)
    ensures |r| == |fs|
  {
    seq(|fs|, i requires 0 <= i < |fs| => Prop(fs[i].key, Data(fs[i].value)))
  }

  // What the walks see of it -----------------------------------------------------------------

  ghost predicate Defined(v: Value) { !v.Undefined? }

  lemma {:induction false} SlotsSeen(mode: Mode, vs: seq<Value>)
    requires forall v :: v in vs ==> Defined(v)
    ensures ElementValues(mode, Slots(vs)) == Some(vs) && Filled(Slots(vs)) == |vs|
    decreases |vs|
  {
    if vs != [] {
      SlotsSeen(mode, vs[1..]);
      assert Slots(vs)[0] == Some(Data(vs[0])) && Slots(vs)[1..] == Slots(vs[1..]);
      assert Defined(vs[0]) && [vs[0]] + vs[1..] == vs;
    }
  }

  ghost predicate AllDefined(fs: seq<Field>) { forall i :: 0 <= i < |fs| ==> Defined(fs[i].value) }

  lemma {:induction false} PropsSeen(mode: Mode, fs: seq<Field>)
    requires AllDefined(fs)
    ensures FieldsOf(mode, Props(fs)) == Some(fs)
    decreases |fs|
  {
    hide FieldsOf;
    if fs == [] {
      NoProps(mode);
    } else {
      PropsSeen(mode, fs[1..]);
      PropsTail(fs);
      FirstProp(mode, Props(fs), fs[0], fs[1..]);
      assert [fs[0]] + fs[1..] == fs;
    }
  }

  lemma NoProps(mode: Mode)
    ensures FieldsOf(mode, Props([])) == Some([])
  {
    assert Props([]) == [];
  }

  lemma PropsTail(fs: seq<Field>)
    requires fs != []
    ensures Props(fs)[0] == Prop(fs[0].key, Data(fs[0].value)) && Props(fs)[1..] == Props(fs[1..])
  {
  }

  lemma FirstProp(mode: Mode, ps: seq<Prop>, f: Field, rest: seq<Field>)
    requires ps != [] && ps[0] == Prop(f.key, Data(f.value)) && Defined(f.value)
    requires FieldsOf(mode, ps[1..]) == Some(rest)
    ensures FieldsOf(mode, ps) == Some([f] + rest)
  {
  }

  /** The heap uses exactly the numbers from `lo` up to `next`. */
  ghost predicate Numbered<T>(b: Built<T>, lo: nat) {
    lo <= b.next && forall id :: id in b.heap <==> lo <= id < b.next
  }

  lemma {:induction false} BuildNumbered(j: Json, lo: nat)
    requires Wf(j)
    ensures Numbered(Build(j, lo), lo) && Defined(Build(j, lo).root)
    decreases j
  {
    match j
    case JArr(items) => ItemsNumbered(items, lo + 1);
    case JObj(m) => MembersNumbered(m, lo + 1);
    case _ =>
  }

  lemma {:induction false} ItemsNumbered(items: Items, lo: nat)
    requires WfItems(items)
    ensures Numbered(BuildItems(items, lo), lo) && forall v :: v in BuildItems(items, lo).root ==> Defined(v)
    decreases items
  {
    if items.ICons? {
      BuildNumbered(items.head, lo);
      ItemsNumbered(items.tail, Build(items.head, lo).next);
    }
  }

  lemma {:induction false} MembersNumbered(m: Members, lo: nat)
    requires WfMembers(m)
    ensures Numbered(BuildMembers(m, lo), lo) && AllDefined(BuildMembers(m, lo).root)
    decreases m
  {
    if m.MCons? {
      BuildNumbered(m.value, lo);
      MembersNumbered(m.tail, Build(m.value, lo).next);
    }
  }

  ghost predicate PartOf(h: Graph, g: Graph) { forall id :: id in h ==> id in g && g[id] == h[id] }

  /** No number of the heap is on the path. */
  ghost predicate OffPath(lo: nat, next: nat, seen: set<nat>) { forall id :: id in seen ==> id < lo || next <= id }

  lemma PartsOfSum(a: Graph, b: Graph, g: Graph)
    requires PartOf(a + b, g) && a.Keys !! b.Keys
    ensures PartOf(a, g) && PartOf(b, g)
  {
    forall id | id in a ensures id in g && g[id] == a[id] { assert id in a + b && (a + b)[id] == a[id]; }
    forall id | id in b ensures id in g && g[id] == b[id] { assert id in a + b && (a + b)[id] == b[id]; }
  }

  lemma ArrayUnfolds(mode: Mode, g: Graph, id: nat, vs: seq<Value>, seen: set<nat>)
    requires id in g && id !in seen && g[id] == ArrayNode(Slots(vs), 0, false) && forall v :: v in vs ==> Defined(v)
    requires UnfoldAll(mode, g, vs, seen + {id}).Some?
    ensures Unfold(mode, g, Ref(id), seen) == Some(JArr(UnfoldAll(mode, g, vs, seen + {id}).value))
  {
    SlotsSeen(mode, vs);
  }

  lemma ObjectUnfolds(mode: Mode, g: Graph, id: nat, fs: seq<Field>, seen: set<nat>)
    requires id in g && id !in seen && g[id] == ObjectNode(Props(fs), false, true) && AllDefined(fs)
    requires UnfoldFields(mode, g, fs, seen + {id}).Some?
    ensures Unfold(mode, g, Ref(id), seen) == Some(JObj(UnfoldFields(mode, g, fs, seen + {id}).value))
  {
    PropsSeen(mode, fs);
  }

  /** Either walk unfolds the built heap to the value it was built from. */
  lemma {:induction false} BuildUnfolds(mode: Mode, j: Json, lo: nat, g: Graph, seen: set<nat>)
    requires Wf(j) && PartOf(Build(j, lo).heap, g) && OffPath(lo, Build(j, lo).next, seen)
    ensures Unfold(mode, g, Build(j, lo).root, seen) == Some(j)
    decreases j
  {
    match j
    case JArr(items) =>
      var r := BuildItems(items, lo + 1);
      ItemsNumbered(items, lo + 1);
      RootFirst(r, lo, ArrayNode(Slots(r.root), 0, false), g, seen);
      ItemsUnfold(mode, items, lo + 1, g, seen + {lo});
      ArrayUnfolds(mode, g, lo, r.root, seen);
    case JObj(m) =>
      var r := BuildMembers(m, lo + 1);
      MembersNumbered(m, lo + 1);
      RootFirst(r, lo, ObjectNode(Props(r.root), false, true), g, seen);
      MembersUnfold(mode, m, lo + 1, g, seen + {lo});
      ObjectUnfolds(mode, g, lo, r.root, seen);
    case _ =>
  }

  /** The root of an array or object, and the rest of its heap below it. */
  lemma RootFirst<T>(r: Built<T>, lo: nat, node: Node, g: Graph, seen: set<nat>)
    requires Numbered(r, lo + 1) && PartOf(r.heap[lo := node], g) && OffPath(lo, r.next, seen)
    ensures lo in g && g[lo] == node && lo !in seen && PartOf(r.heap, g) && OffPath(lo + 1, r.next, seen + {lo})
  {
    assert lo in r.heap[lo := node];
    forall id | id in r.heap ensures id in g && g[id] == r.heap[id] { assert id in r.heap[lo := node]; }
  }

  lemma {:induction false} ItemsUnfold(mode: Mode, items: Items, lo: nat, g: Graph, seen: set<nat>)
    requires WfItems(items) && PartOf(BuildItems(items, lo).heap, g) && OffPath(lo, BuildItems(items, lo).next, seen)
    ensures UnfoldAll(mode, g, BuildItems(items, lo).root, seen) == Some(items)
    decreases items
  {
    if items.ICons? {
      var first := Build(items.head, lo);
      var rest := BuildItems(items.tail, first.next);
      BuildNumbered(items.head, lo);
      ItemsNumbered(items.tail, first.next);
      PartsOfSum(first.heap, rest.heap, g);
      BuildUnfolds(mode, items.head, lo, g, seen);
      ItemsUnfold(mode, items.tail, first.next, g, seen);
      var vs := [first.root] + rest.root;
      assert vs[0] == first.root && vs[1..] == rest.root;
    }
  }

  lemma {:induction false} MembersUnfold(mode: Mode, m: Members, lo: nat, g: Graph, seen: set<nat>)
    requires WfMembers(m) && PartOf(BuildMembers(m, lo).heap, g) && OffPath(lo, BuildMembers(m, lo).next, seen)
    ensures UnfoldFields(mode, g, BuildMembers(m, lo).root, seen) == Some(m)
    decreases m
  {
    if m.MCons? {
      var first := Build(m.value, lo);
      var rest := BuildMembers(m.tail, first.next);
      BuildNumbered(m.value, lo);
      MembersNumbered(m.tail, first.next);
      PartsOfSum(first.heap, rest.heap, g);
      BuildUnfolds(mode, m.value, lo, g, seen);
      MembersUnfold(mode, m.tail, first.next, g, seen);
      var fs := [Field(m.key, first.root)] + rest.root;
      assert fs[0] == Field(m.key, first.root) && fs[1..] == rest.root;
    }
  }

  /** Capturing gives canonical text; parsing that text and capturing the parsed value again, by
      either walk, gives the same text. */
  lemma CaptureStable(g: Graph, v: Value)
    requires WfGraph(Lenient, g) && Capture(g, v).Some?
    ensures var text := Capture(g, v).value;
            && Parse(text).Some? && Wf(Parse(text).value)
            && var again := Build(Parse(text).value, 0);
               CanonicalOf(again.heap, again.root, {}) == Some(text) == Capture(again.heap, again.root)
  {
    hide Unfold, Wf, Norm, Build;
    UnfoldWf(Lenient, g, v, {});
    var j := Unfold(Lenient, g, v, {}).value;
    ParseCanonical(j);
    NormWf(j);
    CanonicalStable(j);
    var again := Build(Norm(j), 0);
    BuildUnfolds(Strict, Norm(j), 0, again.heap, {});
    BuildUnfolds(Lenient, Norm(j), 0, again.heap, {});
  }
}
