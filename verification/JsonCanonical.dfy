/** Canonical JSON text (canonicalRuntimeFactJson) on values: keys sorted at every level. */
module JsonCanonical {
  import opened Wrappers
  import opened JsText
  import opened JsonNumber
  import opened Json

  /** The order of Array.prototype.sort on strings: by code unit. */
  predicate KeyLess(a: Text, b: Text) {
    b != [] && (a == [] || a[0] < b[0] || (a[0] == b[0] && KeyLess(a[1..], b[1..])))
  }

  lemma KeyOrder(a: Text, b: Text)
    ensures a != b ==> KeyLess(a, b) || KeyLess(b, a)
    ensures !(KeyLess(a, b) && KeyLess(b, a)) && !KeyLess(a, a)
    decreases |a|
  {
    if a != [] && b != [] {
      assert a == [a[0]] + a[1..] && b == [b[0]] + b[1..];
      KeyOrder(a[1..], b[1..]);
    }
  }

  lemma KeyTransitive(a: Text, b: Text, c: Text)
    requires KeyLess(a, b) && KeyLess(b, c)
    ensures KeyLess(a, c)
    decreases |a|
  {
    if a != [] && a[0] == b[0] == c[0] { KeyTransitive(a[1..], b[1..], c[1..]); }
  }

  /** A proper prefix, or smaller at the first unit where they differ. */
  ghost predicate UnitLess(a: Text, b: Text) {
    a < b || exists i :: 0 <= i < |a| && i < |b| && a[..i] == b[..i] && a[i] < b[i]
  }

  lemma {:induction false} KeyLessByUnits(a: Text, b: Text)
    ensures KeyLess(a, b) <==> UnitLess(a, b)
    decreases |a|
  {
    if a != [] && b != [] && a[0] == b[0] {
      var x, y := a[1..], b[1..];
      KeyLessByUnits(x, y);
      assert a == [a[0]] + x && b == [b[0]] + y;
      assert a < b <==> x < y;
      forall i | 0 <= i < |x| && i < |y| ensures a[..i + 1] == b[..i + 1] <==> x[..i] == y[..i] {
        assert a[..i + 1] == [a[0]] + x[..i] && b[..i + 1] == [b[0]] + y[..i];
        assert x[..i] == a[..i + 1][1..] && y[..i] == b[..i + 1][1..];
      }
      if UnitLess(a, b) && !(a < b) {
        var i :| 0 <= i < |a| && i < |b| && a[..i] == b[..i] && a[i] < b[i];
        assert x[..i - 1] == y[..i - 1] && x[i - 1] < y[i - 1];
      }
      if UnitLess(x, y) && !(x < y) {
        var i :| 0 <= i < |x| && i < |y| && x[..i] == y[..i] && x[i] < y[i];
        assert a[..i + 1] == b[..i + 1] && a[i + 1] < b[i + 1];
      }
    } else if a != [] && b != [] {
      UnlikeHeads(a, b);
    }
  }

  lemma UnlikeHeads(a: Text, b: Text)
    requires a != [] && b != [] && a[0] != b[0]
    ensures UnitLess(a, b) <==> a[0] < b[0]
  {
    assert a[..0] == b[..0];
    if UnitLess(a, b) && !(a < b) {
      var i :| 0 <= i < |a| && i < |b| && a[..i] == b[..i] && a[i] < b[i];
    }
  }

  function Insert(k: Text, v: Json, m: Members): (r: Members)
    ensures ToMap(r).Keys == ToMap(m).Keys + {k}
  {
    match m
    case MNil => MCons(k, v, MNil)
    case MCons(x, w, t) => if KeyLess(x, k) then MCons(x, w, Insert(k, v, t)) else MCons(k, v, m)
  }

  /** The value with its keys sorted and -0 read as 0. */
  function Norm(j: Json): Json {
    match j
    case JNum(n) => JNum(Fold(n))
    case JArr(items) => JArr(NormItems(items))
    case JObj(m) => JObj(NormMembers(m))
    case _ => j
  }

  function NormItems(items: Items): Items {
    match items
    case INil => INil
    case ICons(h, t) => ICons(Norm(h), NormItems(t))
  }

  function NormMembers(m: Members): (r: Members)
    ensures ToMap(r).Keys == ToMap(m).Keys
  {
    match m
    case MNil => MNil
    case MCons(k, v, t) => Insert(k, Norm(v), NormMembers(t))
  }

  /** canonicalRuntimeFactJson */
  function Canonical(j: Json): Text { Write(Norm(j)) }

  // Equality up to key order -------------------------------------------------------------

  predicate Same(a: Json, b: Json) {
    match a
    case JNum(n) => b.JNum? && Fold(n) == Fold(b.n)
    case JArr(items) => b.JArr? && SameItems(items, b.items)
    case JObj(m) => b.JObj? && |ToMap(m)| == |ToMap(b.members)| && SameMembers(m, ToMap(b.members))
    case _ => a == b
  }

  predicate SameItems(a: Items, b: Items) {
    match a
    case INil => b.INil?
    case ICons(h, t) => b.ICons? && Same(h, b.head) && SameItems(t, b.tail)
  }

  /** Every member of `m` is in `b` with the same value. */
  predicate SameMembers(m: Members, b: map<Text, Json>) {
    m.MCons? ==> m.key in b && Same(m.value, b[m.key]) && SameMembers(m.tail, b)
  }

  // Sorted member lists ------------------------------------------------------------------

  predicate Sorted(m: Members) {
    m.MCons? ==> (forall k :: k in ToMap(m.tail) ==> KeyLess(m.key, k)) && Sorted(m.tail)
  }

  lemma {:induction false} InsertSorted(k: Text, v: Json, m: Members)
    requires Sorted(m) && k !in ToMap(m)
    ensures Sorted(Insert(k, v, m)) && ToMap(Insert(k, v, m)) == ToMap(m)[k := v]
  {
    InsertMap(k, v, m);
    if m.MCons? {
      KeyOrder(m.key, k);
      if KeyLess(m.key, k) {
        InsertSorted(k, v, m.tail);
      } else {
        forall x | x in ToMap(m.tail) ensures KeyLess(k, x) { KeyTransitive(k, m.key, x); }
      }
    }
  }

  lemma {:induction false} InsertMap(k: Text, v: Json, m: Members)
    requires k !in ToMap(m)
    ensures ToMap(Insert(k, v, m)) == ToMap(m)[k := v]
  {
    if m.MCons? && KeyLess(m.key, k) { InsertMap(k, v, m.tail); }
  }

  lemma SortedDistinct(m: Members)
    requires Sorted(m) && m.MCons?
    ensures m.key !in ToMap(m.tail)
  {
    if m.key in ToMap(m.tail) { KeyOrder(m.key, m.key); }
  }

  /** Normalising keeps the keys, normalises the values and sorts. */
  lemma {:induction false} NormMembersMap(m: Members)
    requires WfMembers(m)
    ensures Sorted(NormMembers(m))
    ensures forall k :: k in ToMap(m) ==> ToMap(NormMembers(m))[k] == Norm(ToMap(m)[k])
  {
    if m.MCons? {
      NormMembersMap(m.tail);
      InsertSorted(m.key, Norm(m.value), NormMembers(m.tail));
    }
  }

  lemma EmptyMap(m: Members)
    ensures ToMap(m) == map[] <==> m.MNil?
  {
    if m.MCons? { assert m.key in ToMap(m); }
  }

  /** A sorted list is determined by what it maps. */
  lemma {:induction false} SortedUnique(a: Members, b: Members)
    requires Sorted(a) && Sorted(b) && ToMap(a) == ToMap(b)
    ensures a == b
  {
    if a.MNil? || b.MNil? {
      EmptyMap(a);
      EmptyMap(b);
    } else {
      if a.key != b.key {
        assert a.key in ToMap(b) && b.key in ToMap(a);
        assert KeyLess(a.key, b.key) && KeyLess(b.key, a.key);
        KeyOrder(a.key, b.key);
        assert false;
      }
      SortedDistinct(a);
      SortedDistinct(b);
      assert ToMap(a) - {a.key} == ToMap(a.tail) && ToMap(b) - {b.key} == ToMap(b.tail);
      SortedUnique(a.tail, b.tail);
    }
  }

  // Well-formedness is kept --------------------------------------------------------------

  lemma {:induction false} InsertWf(k: Text, v: Json, m: Members)
    requires WfMembers(m) && Wf(v) && k !in ToMap(m)
    ensures WfMembers(Insert(k, v, m))
  {
    if m.MCons? && KeyLess(m.key, k) { InsertWf(k, v, m.tail); }
  }

  lemma {:induction false} NormWf(j: Json)
    requires Wf(j)
    ensures Wf(Norm(j)) && FoldZero(Norm(j)) == Norm(j)
  {
    match j
    case JArr(items) => NormItemsWf(items);
    case JObj(m) => NormMembersWf(m);
    case _ =>
  }

  lemma {:induction false} NormItemsWf(items: Items)
    requires WfItems(items)
    ensures WfItems(NormItems(items)) && FoldItems(NormItems(items)) == NormItems(items)
  {
    if items.ICons? {
      NormWf(items.head);
      NormItemsWf(items.tail);
    }
  }

  lemma {:induction false} NormMembersWf(m: Members)
    requires WfMembers(m)
    ensures WfMembers(NormMembers(m)) && FoldMembers(NormMembers(m)) == NormMembers(m)
  {
    if m.MCons? {
      NormWf(m.value);
      NormMembersWf(m.tail);
      InsertWf(m.key, Norm(m.value), NormMembers(m.tail));
      InsertFold(m.key, Norm(m.value), NormMembers(m.tail));
    }
  }

  lemma {:induction false} InsertFold(k: Text, v: Json, m: Members)
    requires FoldZero(v) == v && FoldMembers(m) == m
    ensures FoldMembers(Insert(k, v, m)) == Insert(k, v, m)
  {
    if m.MCons? && KeyLess(m.key, k) { InsertFold(k, v, m.tail); }
  }

  // The canonical text decides equality ---------------------------------------------------

  /** Parsing the canonical text gives the value back, keys sorted and -0 as 0. */
  lemma ParseCanonical(j: Json)
    requires Wf(j)
    ensures Parse(Canonical(j)) == Some(Norm(j))
  {
    NormWf(j);
    ParseWrite(Norm(j));
  }

  /** At every level, neighbouring keys are in the order of their code units. */
  ghost predicate Ascends(j: Json) {
    match j
    case JArr(items) => AscendItems(items)
    case JObj(m) => AscendMembers(m)
    case _ => true
  }

  ghost predicate AscendItems(items: Items) { items.ICons? ==> Ascends(items.head) && AscendItems(items.tail) }

  ghost predicate AscendMembers(m: Members) {
    m.MCons? ==> Ascends(m.value) && AscendMembers(m.tail) && (m.tail.MCons? ==> UnitLess(m.key, m.tail.key))
  }

  /** Canonical text lists the keys of every object in the order of their code units. */
  lemma CanonicalAscends(j: Json)
    requires Wf(j)
    ensures Parse(Canonical(j)).Some? && Ascends(Parse(Canonical(j)).value)
  {
    ParseCanonical(j);
    NormAscends(j);
  }

  lemma {:induction false} NormAscends(j: Json)
    requires Wf(j)
    ensures Ascends(Norm(j))
  {
    match j
    case JArr(items) => NormItemsAscend(items);
    case JObj(m) => NormMembersMap(m); NormValuesAscend(m); SortedAscends(NormMembers(m));
    case _ =>
  }

  lemma {:induction false} NormItemsAscend(items: Items)
    requires WfItems(items)
    ensures AscendItems(NormItems(items))
  {
    if items.ICons? {
      NormAscends(items.head);
      NormItemsAscend(items.tail);
    }
  }

  ghost predicate ValuesAscend(m: Members) { m.MCons? ==> Ascends(m.value) && ValuesAscend(m.tail) }

  lemma {:induction false} NormValuesAscend(m: Members)
    requires WfMembers(m)
    ensures ValuesAscend(NormMembers(m))
  {
    if m.MCons? {
      NormAscends(m.value);
      NormValuesAscend(m.tail);
      InsertAscends(m.key, Norm(m.value), NormMembers(m.tail));
    }
  }

  lemma {:induction false} InsertAscends(k: Text, v: Json, m: Members)
    requires Ascends(v) && ValuesAscend(m)
    ensures ValuesAscend(Insert(k, v, m))
  {
    if m.MCons? && KeyLess(m.key, k) { InsertAscends(k, v, m.tail); }
  }

  lemma {:induction false} SortedAscends(m: Members)
    requires Sorted(m) && ValuesAscend(m)
    ensures AscendMembers(m)
  {
    if m.MCons? {
      SortedAscends(m.tail);
      if m.tail.MCons? {
        assert m.tail.key in ToMap(m.tail);
        KeyLessByUnits(m.key, m.tail.key);
      }
    }
  }

  lemma {:induction false} NormDecides(a: Json, b: Json)
    requires Wf(a) && Wf(b)
    ensures Norm(a) == Norm(b) <==> Same(a, b)
    decreases a, 1
  {
    match a
    case JArr(items) => if b.JArr? { NormItemsDecides(items, b.items); }
    case JObj(m) => if b.JObj? { NormMembersDecides(m, b.members); }
    case _ =>
  }

  lemma {:induction false} NormItemsDecides(a: Items, b: Items)
    requires WfItems(a) && WfItems(b)
    ensures NormItems(a) == NormItems(b) <==> SameItems(a, b)
    decreases a, 0
  {
    if a.ICons? && b.ICons? {
      NormDecides(a.head, b.head);
      NormItemsDecides(a.tail, b.tail);
    }
  }

  lemma {:induction false} NormMembersDecides(a: Members, b: Members)
    requires WfMembers(a) && WfMembers(b)
    ensures NormMembers(a) == NormMembers(b) <==> |ToMap(a)| == |ToMap(b)| && SameMembers(a, ToMap(b))
    decreases a, 1
  {
    hide Norm, NormMembers, SameMembers, WfMembers;
    NormMembersMap(a);
    NormMembersMap(b);
    MembersDecide(a, b);
    if NormMembers(a) == NormMembers(b) {
      assert ToMap(a).Keys == ToMap(b).Keys;
      assert |ToMap(a).Keys| == |ToMap(a)| && |ToMap(b).Keys| == |ToMap(b)|;
    } else if |ToMap(a)| == |ToMap(b)| && SameMembers(a, ToMap(b)) {
      SameKeys(ToMap(a).Keys, ToMap(b).Keys);
      assert ToMap(NormMembers(a)) == ToMap(NormMembers(b));
      SortedUnique(NormMembers(a), NormMembers(b));
    }
  }

  lemma SameKeys(a: set<Text>, b: set<Text>)
    requires a <= b && |a| == |b|
    ensures a == b
  {
    assert b == a + (b - a);
    assert |b - a| == 0;
  }

  /** Member by member, equal normal forms and equal values are the same thing. */
  lemma {:induction false} MembersDecide(a: Members, b: Members)
    requires WfMembers(a) && WfMembers(b)
    ensures SameMembers(a, ToMap(b)) <==>
              (forall k :: k in ToMap(a) ==> k in ToMap(b) && Norm(ToMap(a)[k]) == Norm(ToMap(b)[k]))
    decreases a, 0
  {
    if a.MCons? {
      MembersDecide(a.tail, b);
      if a.key in ToMap(b) {
        WfLookup(b, a.key);
        NormDecides(a.value, ToMap(b)[a.key]);
      }
      assert ToMap(a)[a.key] == a.value;
      assert forall k :: k in ToMap(a.tail) ==> k in ToMap(a) && ToMap(a)[k] == ToMap(a.tail)[k];
    }
  }

  lemma {:induction false} WfLookup(m: Members, k: Text)
    requires WfMembers(m) && k in ToMap(m)
    ensures Wf(ToMap(m)[k])
  {
    if m.key != k { WfLookup(m.tail, k); }
  }

  /** Two values have the same canonical text exactly when they are equal up to the order of
      object keys, at every depth, with -0 and 0 identified. */
  lemma CanonicalDecides(a: Json, b: Json)
    requires Wf(a) && Wf(b)
    ensures Canonical(a) == Canonical(b) <==> Same(a, b)
  {
    ParseCanonical(a);
    ParseCanonical(b);
    NormDecides(a, b);
  }

  /** Normalising twice changes nothing, so capturing a captured value gives the same text. */
  lemma CanonicalStable(j: Json)
    requires Wf(j)
    ensures Canonical(Norm(j)) == Canonical(j) && Same(j, Norm(j))
  {
    NormWf(j);
    NormFixed(j);
    NormDecides(j, Norm(j));
  }

  lemma {:induction false} NormFixed(j: Json)
    requires Wf(j)
    ensures Norm(Norm(j)) == Norm(j)
  {
    match j
    case JArr(items) => NormItemsFixed(items);
    case JObj(m) =>
      NormMembersWf(m);
      NormMembersMap(m);
      NormMembersMap(NormMembers(m));
      NormValuesFixed(m);
      assert ToMap(NormMembers(NormMembers(m))) == ToMap(NormMembers(m));
      SortedUnique(NormMembers(NormMembers(m)), NormMembers(m));
    case _ =>
  }

  lemma {:induction false} NormItemsFixed(items: Items)
    requires WfItems(items)
    ensures NormItems(NormItems(items)) == NormItems(items)
  {
    if items.ICons? {
      NormFixed(items.head);
      NormItemsFixed(items.tail);
    }
  }

  lemma {:induction false} NormValuesFixed(m: Members)
    requires WfMembers(m)
    ensures forall k :: k in ToMap(m) ==> Norm(Norm(ToMap(m)[k])) == Norm(ToMap(m)[k])
  {
    if m.MCons? {
      NormFixed(m.value);
      NormValuesFixed(m.tail);
    }
  }
}
