/** The diff format and the two differs of shared/nulledit/textDiff.ts. */
module TextDiff {
  import opened Wrappers
  import opened JsText

  datatype DiffOp = INSERT | DELETE | RETAIN
  datatype Range = Range(start: int, end: int)

  /** `data` stands for the UTF-8 buffer by the text it encodes. */
  datatype Diff = Diff(op: DiffOp, data: Text, range: Option<Range>)

  function Clamp(x: int, lo: int, hi: int): (r: int)
    requires lo <= hi
    ensures lo <= r <= hi
  {
    var m := if x < hi then x else hi;
    if m < lo then lo else m
  }

  /** One operation; ranges are clamped to the text instead of failing. */
  function ApplyDiff(previous: Text, diff: Diff): (r: Text) {
    var range := if diff.range.Some? then diff.range.value else Range(0, 0);
    var start := Clamp(range.start, 0, |previous|);
    var end := Clamp(range.end, start, |previous|);
    match diff.op
    case INSERT => previous[..start] + Decode(diff.data) + previous[start..]
    case DELETE => previous[..start] + previous[end..]
    case RETAIN => previous
  }

  function ApplyAll(text: Text, diffs: seq<Diff>): Text
    decreases |diffs|
  {
    if diffs == [] then text else ApplyAll(ApplyDiff(text, diffs[0]), diffs[1..])
  }

  /** Units of text an edit script carries, deleted ones included. */
  ghost function Cost(diffs: seq<Diff>): nat {
    if diffs == [] then 0 else |diffs[0].data| + Cost(diffs[1..])
  }

  lemma {:induction false} AppendDiffs(t: Text, ds: seq<Diff>, es: seq<Diff>)
    ensures ApplyAll(t, ds + es) == ApplyAll(ApplyAll(t, ds), es)
    ensures Cost(ds + es) == Cost(ds) + Cost(es)
    decreases |ds|
  {
    if ds == [] {
      assert ds + es == es;
    } else {
      assert (ds + es)[1..] == ds[1..] + es;
      AppendDiffs(ApplyDiff(t, ds[0]), ds[1..], es);
    }
  }

  // Deleting and inserting one span ------------------------------------------------------

  function Deletion(start: nat, removed: Text): seq<Diff> {
    if removed == [] then [] else [Diff(DELETE, Scrub(removed), Some(Range(start, start + |removed|)))]
  }

  function Insertion(start: nat, added: Text): seq<Diff> {
    if added == [] then [] else [Diff(INSERT, Scrub(added), Some(Range(start, start)))]
  }

  /** The bytes give back the text: no lone surrogate and no leading byte order mark. */
  ghost predicate Survives(t: Text) {
    WellFormed(t) && (t == [] || t[0] != BOM)
  }

  lemma DeletionApplies(before: Text, removed: Text, after: Text)
    ensures ApplyAll(before + removed + after, Deletion(|before|, removed)) == before + after
    ensures Cost(Deletion(|before|, removed)) == |removed|
  {
    var t, ds := before + removed + after, Deletion(|before|, removed);
    if removed == [] {
      assert t == before + after;
    } else {
      assert ApplyDiff(t, ds[0]) == before + after;
      assert ds[1..] == [];
    }
  }

  lemma InsertionApplies(before: Text, added: Text, after: Text)
    ensures ApplyAll(before + after, Insertion(|before|, added)) == before + Recode(added) + after
    ensures Cost(Insertion(|before|, added)) == |added|
  {
    var t, ds := before + after, Insertion(|before|, added);
    if added == [] {
      assert before + Recode(added) + after == t;
    } else {
      assert ApplyDiff(t, ds[0]) == before + Recode(added) + after;
      assert ds[1..] == [];
    }
  }

  lemma SameMiddle(before: Text, x: Text, y: Text, after: Text)
    ensures before + x + after == before + y + after <==> x == y
  {
    if before + x + after == before + y + after {
      assert x == (before + x + after)[|before|..|before| + |x|];
      assert y == (before + y + after)[|before|..|before| + |y|];
    }
  }

  /** Replacing one span gives the intended text exactly when the inserted text survives. */
  lemma SpanApplies(before: Text, removed: Text, added: Text, after: Text)
    ensures var script := Deletion(|before|, removed) + Insertion(|before|, added);
            && Cost(script) == |removed| + |added|
            && (ApplyAll(before + removed + after, script) == before + added + after <==> Survives(added))
  {
    DeletionApplies(before, removed, after);
    InsertionApplies(before, added, after);
    AppendDiffs(before + removed + after, Deletion(|before|, removed), Insertion(|before|, added));
    SameMiddle(before, Recode(added), added, after);
    RecodeFixed(added);
  }

  // The common prefix and suffix ---------------------------------------------------------

  ghost predicate SharesEnds(a: Text, b: Text, p: nat, q: nat) {
    && p + q <= |a| && p + q <= |b|
    && a[..p] == b[..p] && a[|a| - q..] == b[|b| - q..]
  }

  lemma EndsGrow(a: Text, b: Text, p: nat, q: nat)
    requires SharesEnds(a, b, p, q) && p + q < |a| && p + q < |b|
    ensures a[p] == b[p] ==> SharesEnds(a, b, p + 1, q)
    ensures a[|a| - 1 - q] == b[|b| - 1 - q] ==> SharesEnds(a, b, p, q + 1)
  {
    assert a[..p + 1] == a[..p] + [a[p]] && b[..p + 1] == b[..p] + [b[p]];
    assert a[|a| - 1 - q..] == [a[|a| - 1 - q]] + a[|a| - q..] && b[|b| - 1 - q..] == [b[|b| - 1 - q]] + b[|b| - q..];
  }

  /** How many leading units two texts share. */
  ghost function PrefixLength(a: Text, b: Text, i: nat): (p: nat)
    requires SharesEnds(a, b, i, 0)
    ensures SharesEnds(a, b, p, 0) && i <= p
    decreases |a| - i
  {
    if i < |a| && i < |b| && a[i] == b[i] then (EndsGrow(a, b, i, 0); PrefixLength(a, b, i + 1)) else i
  }

  /** How many trailing units two texts share after `p` leading ones are set aside. */
  ghost function SuffixLength(a: Text, b: Text, p: nat, i: nat): (q: nat)
    requires SharesEnds(a, b, p, i)
    ensures SharesEnds(a, b, p, q) && i <= q
    decreases |a| - i
  {
    if p + i < |a| && p + i < |b| && a[|a| - 1 - i] == b[|b| - 1 - i] then
      (EndsGrow(a, b, p, i); SuffixLength(a, b, p, i + 1))
    else i
  }

  lemma EndsSplit(a: Text, b: Text, p: nat, q: nat)
    requires SharesEnds(a, b, p, q)
    ensures p + q <= |a| && p + q <= |b|
    ensures a == b[..p] + a[p..|a| - q] + b[|b| - q..] && b == b[..p] + b[p..|b| - q] + b[|b| - q..]
  {
    assert a == a[..p] + a[p..|a| - q] + a[|a| - q..];
  }

  /** previous == before + removed + after and next == before + added + after. */
  datatype Change = Change(before: Text, removed: Text, added: Text, after: Text)

  /** The one changed span: longest shared prefix first, then longest shared suffix. */
  ghost function ChangeOf(previous: Text, next: Text): (c: Change)
    ensures previous == c.before + c.removed + c.after && next == c.before + c.added + c.after
  {
    var p := PrefixLength(previous, next, 0);
    var q := SuffixLength(previous, next, p, 0);
    EndsSplit(previous, next, p, q);
    Change(next[..p], previous[p..|previous| - q], next[p..|next| - q], next[|next| - q..])
  }

  lemma EndsFit(a: Text, b: Text, p: nat, q: nat)
    requires SharesEnds(a, b, p, q)
    ensures p + q <= |a| && p + q <= |b|
  {
  }

  /** Both lengths go on while the next units agree and stop where they do not. */
  lemma PrefixStep(a: Text, b: Text, p: nat)
    requires SharesEnds(a, b, p, 0)
    ensures !(p < |a| && p < |b| && a[p] == b[p]) ==> PrefixLength(a, b, p) == p
    ensures p < |a| && p < |b| && a[p] == b[p] ==>
              SharesEnds(a, b, p + 1, 0) && PrefixLength(a, b, p) == PrefixLength(a, b, p + 1)
  {
    if p < |a| && p < |b| { EndsGrow(a, b, p, 0); }
  }

  lemma SuffixStep(a: Text, b: Text, p: nat, q: nat)
    requires SharesEnds(a, b, p, q) && p + q <= |a| && p + q <= |b|
    ensures !(p + q < |a| && p + q < |b| && a[|a| - 1 - q] == b[|b| - 1 - q]) ==> SuffixLength(a, b, p, q) == q
    ensures p + q < |a| && p + q < |b| && a[|a| - 1 - q] == b[|b| - 1 - q] ==>
              SharesEnds(a, b, p, q + 1) && SuffixLength(a, b, p, q) == SuffixLength(a, b, p, q + 1)
  {
    if p + q < |a| && p + q < |b| { EndsGrow(a, b, p, q); }
  }

  lemma SharesNothing(a: Text, b: Text)
    ensures SharesEnds(a, b, 0, 0)
  {
  }

  /** commonBounds, and the two trimming loops of prefixSuffixDiffer. */
  method CommonBounds(previous: Text, next: Text) returns (start: nat, removed: Text, added: Text)
    ensures var c := ChangeOf(previous, next); start == |c.before| && removed == c.removed && added == c.added
  {
    hide SharesEnds, PrefixLength, SuffixLength;
    start := TrimPrefix(previous, next);
    var prevEnd, nextEnd := TrimSuffix(previous, next, start);
    removed, added := previous[start..prevEnd + 1], next[start..nextEnd + 1];
  }

  method TrimPrefix(previous: Text, next: Text) returns (start: nat)
    ensures SharesEnds(previous, next, 0, 0) && start == PrefixLength(previous, next, 0)
  {
    hide SharesEnds, PrefixLength;
    start := 0;
    SharesNothing(previous, next);
    while start < |previous| && start < |next| && previous[start] == next[start]
      invariant SharesEnds(previous, next, start, 0)
      invariant PrefixLength(previous, next, start) == PrefixLength(previous, next, 0)
    {
      PrefixStep(previous, next, start);
      start := start + 1;
    }
    PrefixStep(previous, next, start);
  }

  method TrimSuffix(previous: Text, next: Text, start: nat) returns (prevEnd: int, nextEnd: int)
    requires SharesEnds(previous, next, start, 0)
    ensures var q := SuffixLength(previous, next, start, 0); prevEnd == |previous| - 1 - q && nextEnd == |next| - 1 - q
    ensures start <= prevEnd + 1 <= |previous| && start <= nextEnd + 1 <= |next|
  {
    hide SharesEnds, SuffixLength;
    prevEnd, nextEnd := |previous| - 1, |next| - 1;
    ghost var shared := 0;
    EndsFit(previous, next, start, shared);
    while prevEnd >= start && nextEnd >= start && previous[prevEnd] == next[nextEnd]
      invariant prevEnd == |previous| - 1 - shared && nextEnd == |next| - 1 - shared
      invariant SharesEnds(previous, next, start, shared)
      invariant start + shared <= |previous| && start + shared <= |next|
      invariant SuffixLength(previous, next, start, shared) == SuffixLength(previous, next, start, 0)
    {
      SuffixStep(previous, next, start, shared);
      prevEnd, nextEnd, shared := prevEnd - 1, nextEnd - 1, shared + 1;
    }
    SuffixStep(previous, next, start, shared);
  }

  /** Delete the old middle, then insert the new one. */
  ghost function SpanScript(previous: Text, next: Text): seq<Diff> {
    var c := ChangeOf(previous, next);
    Deletion(|c.before|, c.removed) + Insertion(|c.before|, c.added)
  }

  lemma SpanScriptReplays(previous: Text, next: Text)
    ensures ApplyAll(previous, SpanScript(previous, next)) == next <==> Survives(ChangeOf(previous, next).added)
  {
    var c := ChangeOf(previous, next);
    SpanApplies(c.before, c.removed, c.added, c.after);
  }

  /** prefixSuffixDiffer.compute. The round trip through its output holds exactly when the
      changed middle of the new text survives UTF-8. */
  method PrefixSuffixCompute(previous: Text, next: Text) returns (diffs: seq<Diff>)
    ensures |diffs| <= 2 && diffs == SpanScript(previous, next)
    ensures var c := ChangeOf(previous, next);
            && Cost(diffs) == |c.removed| + |c.added|
            && (ApplyAll(previous, diffs) == next <==> Survives(c.added))
  {
    if previous == next {
      NoChange(next);
      return [];
    }
    var start, removed, added := CommonBounds(previous, next);
    diffs := Deletion(start, removed) + Insertion(start, added);
    ghost var c := ChangeOf(previous, next);
    SpanApplies(c.before, c.removed, c.added, c.after);
  }

  lemma NoChange(t: Text)
    ensures ChangeOf(t, t).removed == [] && ChangeOf(t, t).added == []
  {
    SharedAll(t, 0);
  }

  lemma {:induction false} SharedAll(t: Text, i: nat)
    requires i <= |t|
    ensures PrefixLength(t, t, i) == |t|
    decreases |t| - i
  {
    if i < |t| { SharedAll(t, i + 1); }
  }

  /** Both texts are well formed, yet the script splits a surrogate pair and its replay does
      not give the new text: the pairs D83D DE00 and D83D DE01 share their first unit. */
  lemma SplitPairIsLost(previous: Text, next: Text)
    requires previous == [0xD83D, 0xDE00] && next == [0xD83D, 0xDE01]
    ensures WellFormed(previous) && WellFormed(next) && !Survives(ChangeOf(previous, next).added)
    ensures ApplyAll(previous, Deletion(1, [0xDE00]) + Insertion(1, [0xDE01])) != next
  {
    var p := PrefixLength(previous, next, 0);
    assert PrefixLength(previous, next, 1) == 1;
    assert p == 1;
    assert SuffixLength(previous, next, 1, 0) == 0;
    var added := ChangeOf(previous, next).added;
    assert added == [0xDE01];
    assert Lone(added, 0);
    SpanApplies([0xD83D], [0xDE00], [0xDE01], []);
    assert [0xD83D] + [0xDE00] + [] == previous && [0xD83D] + [0xDE01] + [] == next;
  }
}
