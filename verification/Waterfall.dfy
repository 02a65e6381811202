/** The offline exclusive-time calculation of scripts/profiling/waterfall.ts, over real
    numbers of milliseconds. The covered part of a span is a set of points; its length is
    the total length of the only way of cutting it into intervals separated by gaps. */
module Waterfall {
  import opened Wrappers

  /** The points x with lo <= x < hi; empty when hi <= lo. */
  datatype Interval = Interval(lo: real, hi: real)

  datatype Event = Event(spanId: string, parentSpanId: Option<string>, phase: string, offsetMs: real, durationMs: real)

  datatype Row = Row(event: Event, exclusiveMs: Option<real>, complete: bool)

  ghost predicate In(c: Interval, x: real) {
    c.lo <= x < c.hi
  }

  ghost predicate Covers(s: seq<Interval>, x: real) {
    exists c :: c in s && In(c, x)
  }

  /** Non-empty intervals from left to right with a gap between any two neighbours. */
  ghost predicate Separated(s: seq<Interval>) {
    && (forall i :: 0 <= i < |s| ==> s[i].lo < s[i].hi)
    && (forall i, j :: 0 <= i < j < |s| ==> s[i].hi < s[j].lo)
  }

  ghost predicate SamePoints(s: seq<Interval>, t: seq<Interval>) {
    forall x :: Covers(s, x) <==> Covers(t, x)
  }

  ghost function Length(s: seq<Interval>): real {
    if s == [] then 0.0 else Length(s[..|s| - 1]) + (s[|s| - 1].hi - s[|s| - 1].lo)
  }

  /** `len` is the length of the point set of `s`. */
  ghost predicate IsMeasure(s: seq<Interval>, len: real) {
    exists d :: Separated(d) && SamePoints(d, s) && len == Length(d)
  }

  lemma FirstPoint(d: seq<Interval>, x: real)
    requires Separated(d) && Covers(d, x)
    ensures d[0].lo <= x
  {
    var i :| 0 <= i < |d| && In(d[i], x);
    if i > 0 { assert d[0].hi < d[i].lo; }
  }

  /** Dropping the common first interval leaves the same points on both sides. */
  lemma TailPoints(d: seq<Interval>, x: real)
    requires Separated(d) && d != []
    ensures Covers(d[1..], x) <==> Covers(d, x) && d[0].hi <= x
  {
    if Covers(d[1..], x) {
      var i :| 1 <= i < |d| && In(d[i], x);
      assert d[0].hi < d[i].lo;
    }
    if Covers(d, x) && d[0].hi <= x {
      var i :| 0 <= i < |d| && In(d[i], x);
      assert d[1..][i - 1] == d[i];
    }
  }

  /** A gap decomposition is determined by its points, so the length of a union is well defined. */
  lemma {:induction false} DecompositionUnique(d: seq<Interval>, e: seq<Interval>)
    requires Separated(d) && Separated(e) && SamePoints(d, e)
    ensures d == e
    decreases |d|
  {
    if d == [] || e == [] {
      if d != [] { assert In(d[0], d[0].lo); assert Covers(d, d[0].lo); }
      if e != [] { assert In(e[0], e[0].lo); assert Covers(e, e[0].lo); }
    } else {
      FirstAgrees(d, e);
      FirstAgrees(e, d);
      assert d[0] == e[0];
      forall x ensures Covers(d[1..], x) <==> Covers(e[1..], x) {
        TailPoints(d, x);
        TailPoints(e, x);
      }
      DecompositionUnique(d[1..], e[1..]);
      assert d == [d[0]] + d[1..] && e == [e[0]] + e[1..];
    }
  }

  lemma NotAtEnd(d: seq<Interval>)
    requires Separated(d) && d != []
    ensures !Covers(d, d[0].hi)
  {
  }

  lemma FirstAgrees(d: seq<Interval>, e: seq<Interval>)
    requires Separated(d) && Separated(e) && SamePoints(d, e) && d != [] && e != []
    ensures d[0].lo <= e[0].lo
    ensures d[0].lo == e[0].lo ==> e[0].hi <= d[0].hi
  {
    assert In(e[0], e[0].lo);
    assert Covers(e, e[0].lo);
    FirstPoint(d, e[0].lo);
    if d[0].lo == e[0].lo && d[0].hi < e[0].hi {
      assert In(e[0], d[0].hi);
      assert Covers(e, d[0].hi);
      NotAtEnd(d);
      assert false;
    }
  }

  lemma MeasureUnique(s: seq<Interval>, a: real, b: real)
    requires IsMeasure(s, a) && IsMeasure(s, b)
    ensures a == b
  {
    var d :| Separated(d) && SamePoints(d, s) && a == Length(d);
    var e :| Separated(e) && SamePoints(e, s) && b == Length(e);
    DecompositionUnique(d, e);
  }

  /** A separated family inside [lo, hi) is no longer than hi - lo. */
  lemma {:induction false} LengthBound(d: seq<Interval>, lo: real, hi: real)
    requires Separated(d) && lo <= hi
    requires forall i :: 0 <= i < |d| ==> lo <= d[i].lo && d[i].hi <= hi
    ensures 0.0 <= Length(d) <= hi - lo
    decreases |d|
  {
    if d != [] {
      var last := d[|d| - 1];
      var front := d[..|d| - 1];
      forall i | 0 <= i < |front| ensures lo <= front[i].lo && front[i].hi <= last.lo { assert front[i] == d[i]; }
      LengthBound(front, lo, last.lo);
    }
  }

  function Max(a: real, b: real): real { if a < b then b else a }
  function Min(a: real, b: real): real { if a < b then a else b }

  ghost predicate SortedByStart(s: seq<Interval>) {
    forall i, j :: 0 <= i < j < |s| ==> s[i].lo <= s[j].lo
  }

  /** The sweep over intervals sorted by start only: overlapping, nested, touching and
      zero-length intervals all come out right. */
  method Sweep(children: seq<Interval>) returns (union: real)
    requires SortedByStart(children)
    requires forall i :: 0 <= i < |children| ==> children[i].lo <= children[i].hi
    ensures IsMeasure(children, union)
  {
    union := 0.0;
    var end: Option<real> := None;
    ghost var d: seq<Interval> := [];
    for k := 0 to |children|
      invariant Separated(d) && union == Length(d)
      invariant SamePoints(d, children[..k])
      invariant end.None? ==> d == []
      invariant d != [] ==> end.Some? && d[|d| - 1].hi <= end.value
      invariant end.Some? ==> ((d != [] && d[|d| - 1].hi == end.value)
                               || forall i :: k <= i < |children| ==> end.value <= children[i].lo)
      invariant d != [] ==> forall i :: k <= i < |children| ==> d[|d| - 1].lo <= children[i].lo
    {
      var Interval(a, b) := children[k];
      var from := if end.None? then a else Max(a, end.value);
      union := union + Max(0.0, b - from);
      end := Some(if end.None? then b else Max(end.value, b));
      d := Absorb(d, children[k]);
      forall x ensures Covers(d, x) <==> Covers(children[..k + 1], x) {
        PrefixPoints(children, k, x);
      }
    }
    assert children[..|children|] == children;
  }

  lemma PrefixPoints(s: seq<Interval>, k: nat, x: real)
    requires k < |s|
    ensures Covers(s[..k + 1], x) <==> Covers(s[..k], x) || In(s[k], x)
  {
    assert s[..k + 1] == s[..k] + [s[k]];
  }

  /** Adds one interval that starts no earlier than the last one does. */
  lemma {:induction false} Absorb(d: seq<Interval>, c: Interval) returns (r: seq<Interval>)
    requires Separated(d) && (d != [] ==> d[|d| - 1].lo <= c.lo)
    ensures Separated(r)
    ensures forall x :: Covers(r, x) <==> Covers(d, x) || In(c, x)
    ensures Length(r) == Length(d) + Max(0.0, c.hi - if d == [] then c.lo else Max(c.lo, d[|d| - 1].hi))
    ensures c.hi <= c.lo ==> r == d
    ensures c.lo < c.hi ==> r != [] && r[|r| - 1].lo <= c.lo
    ensures c.lo < c.hi ==> r[|r| - 1].hi == if d == [] then c.hi else Max(c.hi, d[|d| - 1].hi)
  {
    if c.hi <= c.lo {
      r := d;
    } else if d == [] || d[|d| - 1].hi < c.lo {
      r := d + [c];
      AppendPoints(d, c);
    } else {
      var front, last := d[..|d| - 1], d[|d| - 1];
      assert d == front + [last];
      MergePoints(front, last, c);
      r := front + [Interval(last.lo, Max(last.hi, c.hi))];
    }
  }

  lemma {:induction false} AppendPoints(d: seq<Interval>, c: Interval)
    requires Separated(d) && c.lo < c.hi && (d != [] ==> d[|d| - 1].hi < c.lo)
    ensures Separated(d + [c]) && Length(d + [c]) == Length(d) + (c.hi - c.lo)
    ensures forall x :: Covers(d + [c], x) <==> Covers(d, x) || In(c, x)
  {
    assert (d + [c])[..|d|] == d;
  }

  lemma {:induction false} MergePoints(front: seq<Interval>, last: Interval, c: Interval)
    requires Separated(front + [last]) && last.lo <= c.lo < c.hi && c.lo <= last.hi
    ensures var merged := Interval(last.lo, Max(last.hi, c.hi));
            && Separated(front + [merged])
            && Length(front + [merged]) == Length(front + [last]) + Max(0.0, c.hi - last.hi)
            && forall x :: Covers(front + [merged], x) <==> Covers(front + [last], x) || In(c, x)
  {
    var merged := Interval(last.lo, Max(last.hi, c.hi));
    var s, t := front + [last], front + [merged];
    assert s[..|front|] == front && t[..|front|] == front;
    assert s[|front|] == last;
    forall x ensures Covers(t, x) <==> Covers(s, x) || In(c, x) {
      assert In(merged, x) <==> In(last, x) || In(c, x);
    }
  }

  /** One child clipped to the span. */
  function Clip(event: Event, e: Event): (c: Interval) {
    Interval(Max(event.offsetMs, e.offsetMs),
             Min(event.offsetMs + event.durationMs, e.offsetMs + e.durationMs))
  }

  ghost predicate ChildCovers(events: seq<Event>, event: Event, x: real) {
    exists i :: 0 <= i < |events| && events[i].parentSpanId == Some(event.spanId)
                && events[i].offsetMs <= x < events[i].offsetMs + events[i].durationMs
  }

  /** Clipped children, kept when hi >= lo, in a stable order of start. */
  method ClippedChildren(events: seq<Event>, event: Event) returns (children: seq<Interval>)
    ensures SortedByStart(children)
    ensures forall i :: 0 <= i < |children| ==> children[i].lo <= children[i].hi
    ensures forall i :: 0 <= i < |children| ==>
              event.offsetMs <= children[i].lo && children[i].hi <= event.offsetMs + event.durationMs
    ensures forall x :: Covers(children, x) <==>
              ChildCovers(events, event, x) && event.offsetMs <= x < event.offsetMs + event.durationMs
  {
    children := [];
    for k := 0 to |events|
      invariant SortedByStart(children)
      invariant forall i :: 0 <= i < |children| ==> children[i].lo <= children[i].hi
      invariant forall i :: 0 <= i < |children| ==>
                  event.offsetMs <= children[i].lo && children[i].hi <= event.offsetMs + event.durationMs
      invariant forall x :: Covers(children, x) <==>
                  ChildCovers(events[..k], event, x) && event.offsetMs <= x < event.offsetMs + event.durationMs
    {
      var e := events[k];
      var c := Clip(event, e);
      if e.parentSpanId == Some(event.spanId) && c.hi >= c.lo {
        children := InsertByStart(children, c);
      }
      forall x ensures Covers(children, x) <==>
                  ChildCovers(events[..k + 1], event, x) && event.offsetMs <= x < event.offsetMs + event.durationMs
      {
        assert ChildCovers(events[..k + 1], event, x) <==>
          ChildCovers(events[..k], event, x)
          || (e.parentSpanId == Some(event.spanId) && e.offsetMs <= x < e.offsetMs + e.durationMs) by {
          ChildPrefix(events, event, k, x);
        }
      }
    }
    assert events[..|events|] == events;
  }

  lemma ChildPrefix(events: seq<Event>, event: Event, k: nat, x: real)
    requires k < |events|
    ensures ChildCovers(events[..k + 1], event, x) <==>
      ChildCovers(events[..k], event, x)
      || (events[k].parentSpanId == Some(event.spanId)
          && events[k].offsetMs <= x < events[k].offsetMs + events[k].durationMs)
  {
    var s, t := events[..k], events[..k + 1];
    assert t[k] == events[k];
    assert forall i :: 0 <= i < k ==> s[i] == t[i];
  }

  /** Places one interval after every interval that does not start later. */
  method InsertByStart(s: seq<Interval>, c: Interval) returns (r: seq<Interval>)
    requires SortedByStart(s)
    ensures SortedByStart(r)
    ensures exists i :: 0 <= i <= |s| && r == s[..i] + [c] + s[i..]
    ensures forall x :: Covers(r, x) <==> Covers(s, x) || In(c, x)
  {
    hide Covers;
    var i := |s|;
    while i > 0 && c.lo < s[i - 1].lo
      invariant 0 <= i <= |s|
      invariant forall j :: i <= j < |s| ==> c.lo < s[j].lo
    {
      i := i - 1;
    }
    r := s[..i] + [c] + s[i..];
    forall x ensures Covers(r, x) <==> Covers(s, x) || In(c, x) { SpliceCovers(s, c, i, x); }
  }

  lemma SpliceCovers(s: seq<Interval>, c: Interval, i: nat, x: real)
    requires i <= |s|
    ensures Covers(s[..i] + [c] + s[i..], x) <==> Covers(s, x) || In(c, x)
  {
    assert s == s[..i] + s[i..];
  }

  /** One output row. The exclusive time is the span's duration minus the exact length of
      the part of the span that some child covers, and nothing is clamped away. */
  method ExclusiveRow(events: seq<Event>, event: Event, known: bool) returns (row: Row, ghost children: seq<Interval>)
    ensures row.event == event && row.complete == known
    ensures row.exclusiveMs.Some? <==> known
    ensures forall x :: Covers(children, x) <==>
              ChildCovers(events, event, x) && event.offsetMs <= x < event.offsetMs + event.durationMs
    ensures known && event.durationMs >= 0.0 ==>
              IsMeasure(children, event.durationMs - row.exclusiveMs.value)
              && 0.0 <= row.exclusiveMs.value <= event.durationMs
    ensures known && event.durationMs < 0.0 ==> row.exclusiveMs.value == 0.0
  {
    var kids := ClippedChildren(events, event);
    children := kids;
    var union := Sweep(kids);
    CoverBound(kids, event.offsetMs, event.offsetMs + event.durationMs, union);
    row := Row(event, if known then Some(Max(0.0, event.durationMs - union)) else None, known);
  }

  /** What the calculation needs of a profile batch; `valid` is the verdict of validBatch. */
  datatype Batch = Batch(
    valid: bool, detailed: bool, sampled: bool, detailDropped: int, detailTruncated: int, numericTruncated: int,
    pending: seq<int>, spanId: string, events: seq<Event>)

  /** Nothing was dropped or left pending, and every span but the root has its parent in the batch. */
  predicate Known(b: Batch) {
    && b.valid && b.detailed && b.sampled && b.detailDropped == 0 && b.detailTruncated == 0 && b.numericTruncated == 0
    && (forall p :: p in b.pending ==> p == 0)
    && (forall e :: e in b.events ==>
          e.spanId == b.spanId
          || (e.parentSpanId.Some? && e.parentSpanId.value != ""
              && exists f :: f in b.events && f.spanId == e.parentSpanId.value))
  }

  /** `len` is the length of the part of the span that its children cover. */
  ghost predicate IsCoveredTime(events: seq<Event>, event: Event, len: real) {
    exists children :: CoversSpan(events, event, children) && IsMeasure(children, len)
  }

  ghost predicate CoversSpan(events: seq<Event>, event: Event, children: seq<Interval>) {
    forall x :: Covers(children, x) <==>
      ChildCovers(events, event, x) && event.offsetMs <= x < event.offsetMs + event.durationMs
  }

  /** Exclusive and covered time add up to the duration, or nothing is claimed. */
  ghost predicate RowCorrect(b: Batch, event: Event, row: Row) {
    && row.event == event && row.complete == Known(b) && (row.exclusiveMs.Some? <==> Known(b))
    && (Known(b) && event.durationMs >= 0.0 ==>
          IsCoveredTime(b.events, event, event.durationMs - row.exclusiveMs.value)
          && 0.0 <= row.exclusiveMs.value <= event.durationMs)
    && (Known(b) && event.durationMs < 0.0 ==> row.exclusiveMs.value == 0.0)
  }

  /** A span's covered time is determined, so a correct row is the only one. */
  lemma RowUnique(b: Batch, event: Event, p: Row, q: Row)
    requires RowCorrect(b, event, p) && RowCorrect(b, event, q)
    ensures p == q
  {
    hide Known, Covers, ChildCovers, IsMeasure;
    if Known(b) && event.durationMs >= 0.0 {
      var l, m := event.durationMs - p.exclusiveMs.value, event.durationMs - q.exclusiveMs.value;
      var c :| CoversSpan(b.events, event, c) && IsMeasure(c, l);
      var d :| CoversSpan(b.events, event, d) && IsMeasure(d, m);
      assert SamePoints(c, d);
      SamePointsSameMeasure(c, d, l, m);
    }
  }

  lemma SamePointsSameMeasure(c: seq<Interval>, d: seq<Interval>, l: real, m: real)
    requires SamePoints(c, d) && IsMeasure(c, l) && IsMeasure(d, m)
    ensures l == m
  {
    hide Covers;
    var x :| Separated(x) && SamePoints(x, c) && l == Length(x);
    assert SamePoints(x, d);
    assert IsMeasure(d, l);
    MeasureUnique(d, l, m);
  }

  /** waterfall */
  method Waterfall(b: Batch) returns (rows: seq<Row>)
    ensures |rows| == |b.events| && forall i :: 0 <= i < |rows| ==> RowCorrect(b, b.events[i], rows[i])
  {
    hide Known, Covers, ChildCovers, IsMeasure, IsCoveredTime;
    var complete := b.valid && b.detailed && b.sampled && b.detailDropped == 0 && b.detailTruncated == 0
                    && b.numericTruncated == 0 && forall p :: p in b.pending ==> p == 0;
    var ids := set e | e in b.events :: e.spanId;
    var joined := forall e :: e in b.events ==>
      e.spanId == b.spanId || (e.parentSpanId.Some? && e.parentSpanId.value != "" && e.parentSpanId.value in ids);
    var known := complete && joined;
    KnownExactly(b);
    rows := [];
    for i := 0 to |b.events|
      invariant |rows| == i && forall k :: 0 <= k < i ==> RowCorrect(b, b.events[k], rows[k])
    {
      var row, children := ExclusiveRow(b.events, b.events[i], known);
      CoveredBy(b.events, b.events[i], children);
      rows := rows + [row];
    }
  }

  lemma KnownExactly(b: Batch)
    ensures Known(b) <==>
              && b.valid && b.detailed && b.sampled && b.detailDropped == 0 && b.detailTruncated == 0
              && b.numericTruncated == 0 && (forall p :: p in b.pending ==> p == 0)
              && forall e :: e in b.events ==>
                   || e.spanId == b.spanId
                   || (e.parentSpanId.Some? && e.parentSpanId.value != ""
                       && e.parentSpanId.value in (set f | f in b.events :: f.spanId))
  {
  }

  lemma CoveredBy(events: seq<Event>, event: Event, children: seq<Interval>)
    requires CoversSpan(events, event, children)
    ensures forall len :: IsMeasure(children, len) ==> IsCoveredTime(events, event, len)
  {
    hide CoversSpan, IsMeasure;
  }

  lemma OutsidePoint(s: seq<Interval>, hi: real, x: real)
    requires hi <= x && forall i :: 0 <= i < |s| ==> s[i].hi <= hi
    ensures !Covers(s, x)
  {
  }

  lemma CoverBound(s: seq<Interval>, lo: real, hi: real, len: real)
    requires IsMeasure(s, len)
    requires forall i :: 0 <= i < |s| ==> lo <= s[i].lo && s[i].hi <= hi
    ensures 0.0 <= len
    ensures lo <= hi ==> len <= hi - lo
  {
    var d: seq<Interval> :| Separated(d) && SamePoints(d, s) && len == Length(d);
    forall i | 0 <= i < |d| ensures lo <= d[i].lo && d[i].hi <= hi {
      assert In(d[i], d[i].lo) && Covers(d, d[i].lo);
      if d[i].hi > hi { OutsidePoint(s, hi, Max(hi, d[i].lo)); }
    }
    if d == [] {
    } else {
      assert lo <= hi;
      LengthBound(d, lo, hi);
    }
  }
}
