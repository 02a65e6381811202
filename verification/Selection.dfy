/** The bounded top-N selection of queryNullMemRecords, against filter, stable sort and take. */
module Selection {

  ghost predicate Transitive<T>(cmp: (T, T) -> int, a: T, b: T, c: T) {
    cmp(a, b) <= 0 && cmp(b, c) <= 0 ==> cmp(a, c) <= 0
  }

  /** A comparison that orders everything, possibly with ties. */
  ghost predicate TotalPreorder<T(!new)>(cmp: (T, T) -> int) {
    && (forall a, b :: cmp(a, b) < 0 <==> cmp(b, a) > 0)
    && (forall a, b, c :: Transitive(cmp, a, b, c))
  }

  /** Index i goes before index j: by comparison, and by arrival on a tie. */
  ghost predicate Before<T>(s: seq<T>, cmp: (T, T) -> int, i: nat, j: nat)
    requires i < |s| && j < |s|
  {
    cmp(s[i], s[j]) < 0 || (cmp(s[i], s[j]) == 0 && i < j)
  }

  ghost predicate Ordered<T>(s: seq<T>, cmp: (T, T) -> int, order: seq<nat>) {
    && (forall k :: 0 <= k < |order| ==> order[k] < |s|)
    && (forall a, b :: 0 <= a < b < |order| ==> Before(s, cmp, order[a], order[b]))
  }

  /** The stable sort of the kept ones of the first `n` elements, as the sequence of their indices. */
  ghost predicate IsStableSort<T>(s: seq<T>, n: nat, keep: T -> bool, cmp: (T, T) -> int, order: seq<nat>)
    requires n <= |s|
  {
    Ordered(s, cmp, order) && forall i: nat :: i in order <==> i < n && keep(s[i])
  }

  ghost function Pick<T>(s: seq<T>, order: seq<nat>): seq<T>
    requires forall k :: 0 <= k < |order| ==> order[k] < |s|
  {
    seq(|order|, k requires 0 <= k < |order| => s[order[k]])
  }

  ghost function Cut<T>(s: seq<T>, limit: nat): seq<T> {
    if |s| <= limit then s else s[..limit]
  }

  /** `r` is the first `limit` elements of the stable sort of what `keep` lets through. */
  ghost predicate IsSelection<T>(s: seq<T>, keep: T -> bool, cmp: (T, T) -> int, limit: nat, r: seq<T>) {
    exists order :: IsStableSort(s, |s|, keep, cmp, order) && r == Cut(Pick(s, order), limit)
  }

  /** The stable sort is unique, so a selection is a function of its input. */
  lemma {:induction false} OrderUnique<T(!new)>(s: seq<T>, cmp: (T, T) -> int, a: seq<nat>, b: seq<nat>)
    requires TotalPreorder(cmp) && Ordered(s, cmp, a) && Ordered(s, cmp, b)
    requires forall i :: i in a <==> i in b
    ensures a == b
    decreases |a|
  {
    assert a == [] || a[0] in a;
    assert b == [] || b[0] in b;
    if a != [] && b != [] {
      assert a[0] in b && b[0] in a;
      assert a[0] == b[0];
      forall i ensures i in a[1..] <==> i in b[1..] {
        assert i in a <==> i == a[0] || i in a[1..];
        assert i in b <==> i == b[0] || i in b[1..];
        assert a[0] !in a[1..] && b[0] !in b[1..];
      }
      OrderUnique(s, cmp, a[1..], b[1..]);
    }
  }

  lemma SelectionUnique<T(!new)>(s: seq<T>, keep: T -> bool, cmp: (T, T) -> int, limit: nat, a: seq<T>, b: seq<T>)
    requires TotalPreorder(cmp) && IsSelection(s, keep, cmp, limit, a) && IsSelection(s, keep, cmp, limit, b)
    ensures a == b
  {
    var x :| IsStableSort(s, |s|, keep, cmp, x) && a == Cut(Pick(s, x), limit);
    var y :| IsStableSort(s, |s|, keep, cmp, y) && b == Cut(Pick(s, y), limit);
    OrderUnique(s, cmp, x, y);
  }

  /** Selecting from a selection changes nothing. */
  lemma SelectionIdempotent<T(!new)>(s: seq<T>, keep: T -> bool, cmp: (T, T) -> int, limit: nat, r: seq<T>)
    requires TotalPreorder(cmp) && IsSelection(s, keep, cmp, limit, r)
    ensures IsSelection(r, keep, cmp, limit, r)
    ensures |r| <= limit && forall x :: x in r ==> keep(x) && x in s
  {
    var order :| IsStableSort(s, |s|, keep, cmp, order) && r == Cut(Pick(s, order), limit);
    forall k | 0 <= k < |r| ensures keep(r[k]) && r[k] in s { assert order[k] in order; }
    forall a, b | 0 <= a < b < |r| ensures cmp(r[a], r[b]) <= 0 {
      assert Before(s, cmp, order[a], order[b]);
    }
    AlreadySelected(r, keep, cmp, limit);
  }

  /** A selection takes its elements from different places of the input. */
  lemma SelectionPlaces<T(!new)>(s: seq<T>, keep: T -> bool, cmp: (T, T) -> int, limit: nat, r: seq<T>)
    returns (places: seq<nat>)
    requires TotalPreorder(cmp) && IsSelection(s, keep, cmp, limit, r)
    ensures |places| == |r| && forall k :: 0 <= k < |r| ==> places[k] < |s| && r[k] == s[places[k]]
    ensures forall a, b :: 0 <= a < b < |r| ==> places[a] != places[b]
  {
    var order :| IsStableSort(s, |s|, keep, cmp, order) && r == Cut(Pick(s, order), limit);
    places := order[..|r|];
    forall a, b | 0 <= a < b < |r| ensures places[a] != places[b] { assert Before(s, cmp, order[a], order[b]); }
  }

  lemma AlreadySelected<T(!new)>(r: seq<T>, keep: T -> bool, cmp: (T, T) -> int, limit: nat)
    requires |r| <= limit && (forall k :: 0 <= k < |r| ==> keep(r[k]))
    requires forall a, b :: 0 <= a < b < |r| ==> cmp(r[a], r[b]) <= 0
    ensures IsSelection(r, keep, cmp, limit, r)
  {
    var all: seq<nat> := seq(|r|, k => k);
    forall i: nat ensures i in all <==> i < |r| && keep(r[i]) {
      if i < |r| { assert all[i] == i; }
    }
    assert Ordered(r, cmp, all);
    assert IsStableSort(r, |r|, keep, cmp, all);
    assert Cut(Pick(r, all), limit) == r;
  }

  /** selected.findIndex((other) => compare(record, other) < 0) */
  method FindIndex<T>(cmp: (T, T) -> int, record: T, selected: seq<T>) returns (index: int)
    ensures -1 <= index < |selected|
    ensures index < 0 ==> forall k :: 0 <= k < |selected| ==> cmp(record, selected[k]) >= 0
    ensures index >= 0 ==> cmp(record, selected[index]) < 0
    ensures index >= 0 ==> forall k :: 0 <= k < index ==> cmp(record, selected[k]) >= 0
  {
    index := 0;
    while index < |selected| && cmp(record, selected[index]) >= 0
      invariant 0 <= index <= |selected|
      invariant forall k :: 0 <= k < index ==> cmp(record, selected[k]) >= 0
    {
      index := index + 1;
    }
    if index == |selected| { index := -1; }
  }

  /** The place of a new arrival in the stable sort of what came before. */
  lemma Arrive<T(!new)>(s: seq<T>, keep: T -> bool, cmp: (T, T) -> int, order: seq<nat>, k: nat, p: nat)
    requires TotalPreorder(cmp) && k < |s| && keep(s[k]) && IsStableSort(s, k, keep, cmp, order)
    requires p <= |order| && (forall a :: 0 <= a < p ==> cmp(s[k], s[order[a]]) >= 0)
    requires p < |order| ==> cmp(s[k], s[order[p]]) < 0
    ensures IsStableSort(s, k + 1, keep, cmp, order[..p] + [k] + order[p..])
  {
    var r := order[..p] + [k] + order[p..];
    forall b | p <= b < |order| ensures cmp(s[k], s[order[b]]) < 0 { Above(s, cmp, order, k, p, b); }
    forall b | 0 <= b < |order| ensures order[b] < k { assert order[b] in order; }
    forall a, b | 0 <= a < b < |r| ensures Before(s, cmp, r[a], r[b]) {
      if a != p && b != p {
        assert Before(s, cmp, order[if a < p then a else a - 1], order[if b < p then b else b - 1]);
      }
    }
    assert order == order[..p] + order[p..];
  }

  lemma Above<T(!new)>(s: seq<T>, cmp: (T, T) -> int, order: seq<nat>, k: nat, p: nat, b: nat)
    requires TotalPreorder(cmp) && k < |s| && Ordered(s, cmp, order) && p <= b < |order|
    requires cmp(s[k], s[order[p]]) < 0
    ensures cmp(s[k], s[order[b]]) < 0
  {
    if b > p {
      assert Before(s, cmp, order[p], order[b]);
      assert Transitive(cmp, s[order[p]], s[order[b]], s[k]);
    }
  }

  /** The selection loop: one pass, never more than `limit` elements held. */
  method Select<T(!new)>(records: seq<T>, keep: T -> bool, cmp: (T, T) -> int, limit: nat) returns (selected: seq<T>)
    requires TotalPreorder(cmp)
    ensures IsSelection(records, keep, cmp, limit, selected)
  {
    selected := [];
    ghost var order: seq<nat> := [];
    for k := 0 to |records|
      invariant IsStableSort(records, k, keep, cmp, order)
      invariant selected == Cut(Pick(records, order), limit)
    {
      var record := records[k];
      if keep(record) {
        selected, order := Admit(records, keep, cmp, limit, k, selected, order);
      }
    }
  }

  /** One kept record: splice it in before the first that compares above it, drop the overflow. */
  method Admit<T(!new)>(records: seq<T>, ghost keep: T -> bool, cmp: (T, T) -> int, limit: nat, k: nat,
                        selected: seq<T>, ghost order: seq<nat>)
    returns (next: seq<T>, ghost longer: seq<nat>)
    requires TotalPreorder(cmp) && k < |records| && keep(records[k])
    requires IsStableSort(records, k, keep, cmp, order) && selected == Cut(Pick(records, order), limit)
    ensures IsStableSort(records, k + 1, keep, cmp, longer) && next == Cut(Pick(records, longer), limit)
  {
    var record := records[k];
    var index := FindIndex(cmp, record, selected);
    ghost var p := if index >= 0 then index else Position(records, cmp, order, k, |selected|);
    assert forall a :: 0 <= a < |selected| ==> selected[a] == records[order[a]];
    Arrive(records, keep, cmp, order, k, p);
    longer := order[..p] + [k] + order[p..];
    PickInsert(records, order, k, p);
    CutInsert(Pick(records, order), limit, record, p);
    if index < 0 {
      next := if |selected| < limit then selected + [record] else selected;
    } else {
      next := selected[..index] + [record] + selected[index..];
      if |next| > limit { next := next[..|next| - 1]; }
    }
  }

  lemma PickInsert<T>(s: seq<T>, order: seq<nat>, k: nat, p: nat)
    requires k < |s| && p <= |order| && forall a :: 0 <= a < |order| ==> order[a] < |s|
    ensures Pick(s, order[..p] + [k] + order[p..]) == Pick(s, order)[..p] + [s[k]] + Pick(s, order)[p..]
  {
  }

  /** Truncating after the insertion and inserting into the truncated sequence agree. */
  lemma CutInsert<T>(full: seq<T>, limit: nat, x: T, p: nat)
    requires p <= |full|
    ensures var top, next := Cut(full, limit), Cut(full[..p] + [x] + full[p..], limit);
            && (p < |top| ==> next == Cut(top[..p] + [x] + top[p..], limit))
            && (p == |top| < limit ==> next == top + [x])
            && (|top| <= p && |top| == limit ==> next == top)
  {
  }

  /** The first place at or after `from` whose element compares above the new one. */
  ghost function Position<T>(s: seq<T>, cmp: (T, T) -> int, order: seq<nat>, k: nat, from: nat): (p: nat)
    requires k < |s| && from <= |order| && forall a :: 0 <= a < |order| ==> order[a] < |s|
    ensures from <= p <= |order|
    ensures forall a :: from <= a < p ==> cmp(s[k], s[order[a]]) >= 0
    ensures p < |order| ==> cmp(s[k], s[order[p]]) < 0
    decreases |order| - from
  {
    if from == |order| || cmp(s[k], s[order[from]]) < 0 then from else Position(s, cmp, order, k, from + 1)
  }
}
