/** lcsDpDiffer of shared/nulledit/textDiff.ts: the table, the walk over it, and exactly when the
    script replays. */
module LcsDiff {
  import opened JsText
  import opened TextDiff

  // Longest common subsequence -----------------------------------------------------------

  /** Length of a longest common subsequence of a[i..] and b[j..]. */
  ghost function Lcs(a: Text, b: Text, i: nat, j: nat): nat
    requires i <= |a| && j <= |b|
    decreases |a| - i + |b| - j
  {
    if i == |a| || j == |b| then 0
    else if a[i] == b[j] then 1 + Lcs(a, b, i + 1, j + 1)
    else var x, y := Lcs(a, b, i + 1, j), Lcs(a, b, i, j + 1); if x < y then y else x
  }

  ghost predicate IsSubsequence(s: Text, t: Text, i: nat)
    requires i <= |t|
    decreases |t| - i
  {
    s == [] || (i < |t| && ((s[0] == t[i] && IsSubsequence(s[1..], t, i + 1)) || IsSubsequence(s, t, i + 1)))
  }

  /** Nothing common to both texts is longer than what the table holds. */
  lemma {:induction false} LcsIsLongest(s: Text, a: Text, b: Text, i: nat, j: nat)
    requires i <= |a| && j <= |b| && IsSubsequence(s, a, i) && IsSubsequence(s, b, j)
    ensures |s| <= Lcs(a, b, i, j)
    decreases |a| - i + |b| - j
  {
    if s == [] || i == |a| || j == |b| {
    } else if a[i] == b[j] {
      DropFirst(s, a, i);
      DropFirst(s, b, j);
      LcsIsLongest(s[1..], a, b, i + 1, j + 1);
    } else if s[0] == a[i] {
      LcsIsLongest(s, a, b, i, j + 1);
    } else {
      LcsIsLongest(s, a, b, i + 1, j);
    }
  }

  lemma {:induction false} DropFirst(s: Text, t: Text, i: nat)
    requires i < |t| && s != [] && IsSubsequence(s, t, i)
    ensures IsSubsequence(s[1..], t, i + 1)
    decreases |t| - i
  {
    if !(s[0] == t[i] && IsSubsequence(s[1..], t, i + 1)) {
      DropFirst(s, t, i + 1);
    }
  }

  lemma LcsEdges(a: Text, b: Text)
    ensures forall j :: 0 <= j <= |b| ==> Lcs(a, b, |a|, j) == 0
    ensures forall i :: 0 <= i <= |a| ==> Lcs(a, b, i, |b|) == 0
  {
  }

  lemma LcsStep(a: Text, b: Text, i: nat, j: nat)
    requires i < |a| && j < |b|
    ensures Lcs(a, b, i, j) == if a[i] == b[j] then Lcs(a, b, i + 1, j + 1) + 1
                               else if Lcs(a, b, i + 1, j) < Lcs(a, b, i, j + 1) then Lcs(a, b, i, j + 1)
                                 else Lcs(a, b, i + 1, j)
  {
  }

  /** The dynamic-programming table, filled from the last row and column. */
  method FillTable(a: Text, b: Text) returns (table: array2<nat>)
    ensures table.Length0 == |a| + 1 && table.Length1 == |b| + 1
    ensures forall i, j :: 0 <= i <= |a| && 0 <= j <= |b| ==> table[i, j] == Lcs(a, b, i, j)
  {
    hide Lcs;
    table := new nat[|a| + 1, |b| + 1]((i, j) => 0);
    LcsEdges(a, b);
    assert forall j :: 0 <= j <= |b| ==> table[|a|, j] == Lcs(a, b, |a|, j);
    var row := |a| - 1;
    while row >= 0
      invariant -1 <= row < |a|
      invariant forall i :: 0 <= i <= |a| ==> table[i, |b|] == 0
      invariant forall i, j :: row < i <= |a| && 0 <= j <= |b| ==> table[i, j] == Lcs(a, b, i, j)
    {
      var col := |b| - 1;
      while col >= 0
        invariant -1 <= col < |b|
        invariant forall i :: 0 <= i <= |a| ==> table[i, |b|] == 0
        invariant forall i, j :: row < i <= |a| && 0 <= j <= |b| ==> table[i, j] == Lcs(a, b, i, j)
        invariant forall j :: col < j <= |b| ==> table[row, j] == Lcs(a, b, row, j)
      {
        LcsStep(a, b, row, col);
        table[row, col] :=
          if a[row] == b[col] then table[row + 1, col + 1] + 1
          else if table[row + 1, col] < table[row, col + 1] then table[row, col + 1] else table[row + 1, col];
        col := col - 1;
      }
      row := row - 1;
    }
  }

  /** Dropping a unit of either text loses at most one. */
  lemma {:induction false} LcsDrops(a: Text, b: Text, i: nat, j: nat)
    requires i <= |a| && j <= |b|
    ensures i < |a| ==> Lcs(a, b, i + 1, j) <= Lcs(a, b, i, j) <= Lcs(a, b, i + 1, j) + 1
    ensures j < |b| ==> Lcs(a, b, i, j + 1) <= Lcs(a, b, i, j) <= Lcs(a, b, i, j + 1) + 1
    decreases |a| - i + |b| - j
  {
    if i < |a| && j < |b| {
      LcsDrops(a, b, i + 1, j);
      LcsDrops(a, b, i, j + 1);
      LcsDrops(a, b, i + 1, j + 1);
    }
  }

  lemma {:induction false} LcsMonotone(a: Text, b: Text, i: nat, j: nat, i1: nat, j1: nat)
    requires i <= i1 <= |a| && j <= j1 <= |b|
    ensures Lcs(a, b, i1, j1) <= Lcs(a, b, i, j)
    decreases i1 - i + j1 - j
  {
    hide Lcs;
    LcsDrops(a, b, i, j);
    if i < i1 {
      LcsMonotone(a, b, i + 1, j, i1, j1);
    } else if j < j1 {
      LcsMonotone(a, b, i, j + 1, i1, j1);
    }
  }

  // The walk as a function -----------------------------------------------------------------

  predicate Meets(a: Text, b: Text, i: nat, j: nat) { i < |a| && j < |b| && a[i] == b[j] }

  /** The tie-break: delete unless inserting keeps strictly more. */
  ghost predicate DeletesNext(a: Text, b: Text, i: nat, j: nat)
    requires i <= |a| && j <= |b|
  {
    j == |b| || (i < |a| && Lcs(a, b, i + 1, j) >= Lcs(a, b, i, j + 1))
  }

  /** Where the changed region at (i, j) ends: the heads meet again, or both texts do. */
  ghost function HunkEnd(a: Text, b: Text, i: nat, j: nat): (e: (nat, nat))
    requires i <= |a| && j <= |b|
    ensures i <= e.0 <= |a| && j <= e.1 <= |b|
    ensures Meets(a, b, e.0, e.1) || (e.0 == |a| && e.1 == |b|)
    ensures !Meets(a, b, i, j) && (i < |a| || j < |b|) ==> i + j < e.0 + e.1
    ensures Lcs(a, b, e.0, e.1) == Lcs(a, b, i, j)
    decreases |a| - i + |b| - j
  {
    if Meets(a, b, i, j) || (i == |a| && j == |b|) then (i, j)
    else if DeletesNext(a, b, i, j) then HunkEnd(a, b, i + 1, j)
    else HunkEnd(a, b, i, j + 1)
  }

  /** The script from (i, j) on, when the text before the middles is `base` units long. */
  ghost function Script(a: Text, b: Text, base: nat, i: nat, j: nat): seq<Diff>
    requires i <= |a| && j <= |b|
    decreases |a| - i + |b| - j
  {
    if i == |a| && j == |b| then []
    else if Meets(a, b, i, j) then Script(a, b, base, i + 1, j + 1)
    else
      var e := HunkEnd(a, b, i, j);
      Deletion(base + j, a[i..e.0]) + Insertion(base + j, b[j..e.1]) + Script(a, b, base, e.0, e.1)
  }

  lemma ScriptStep(a: Text, b: Text, base: nat, i: nat, j: nat)
    requires i <= |a| && j <= |b|
    ensures i == |a| && j == |b| ==> Script(a, b, base, i, j) == []
    ensures Meets(a, b, i, j) ==> Script(a, b, base, i, j) == Script(a, b, base, i + 1, j + 1)
    ensures !Meets(a, b, i, j) && (i < |a| || j < |b|) ==>
              var e := HunkEnd(a, b, i, j);
              Script(a, b, base, i, j) ==
                (Deletion(base + j, a[i..e.0]) + Insertion(base + j, b[j..e.1])) + Script(a, b, base, e.0, e.1)
  {
    hide HunkEnd, Deletion, Insertion;
  }

  /** Every inserted hunk comes back from its bytes. */
  ghost predicate HunksSurvive(a: Text, b: Text, i: nat, j: nat)
    requires i <= |a| && j <= |b|
    decreases |a| - i + |b| - j
  {
    if i == |a| && j == |b| then true
    else if Meets(a, b, i, j) then HunksSurvive(a, b, i + 1, j + 1)
    else var e := HunkEnd(a, b, i, j); Survives(b[j..e.1]) && HunksSurvive(a, b, e.0, e.1)
  }

  /** The script carries exactly what is outside one longest common subsequence. */
  lemma {:induction false} ScriptCost(a: Text, b: Text, base: nat, i: nat, j: nat)
    requires i <= |a| && j <= |b|
    ensures Cost(Script(a, b, base, i, j)) + 2 * Lcs(a, b, i, j) == |a| - i + |b| - j
    decreases |a| - i + |b| - j
  {
    hide HunkEnd, Script, Deletion, Insertion;
    ScriptStep(a, b, base, i, j);
    if i == |a| && j == |b| {
    } else if Meets(a, b, i, j) {
      ScriptCost(a, b, base, i + 1, j + 1);
    } else {
      var e := HunkEnd(a, b, i, j);
      var hunk := Deletion(base + j, a[i..e.0]) + Insertion(base + j, b[j..e.1]);
      ScriptCost(a, b, base, e.0, e.1);
      HunkCost(base + j, a[i..e.0], b[j..e.1]);
      AppendDiffs([], hunk, Script(a, b, base, e.0, e.1));
    }
  }

  lemma HunkCost(start: nat, removed: Text, added: Text)
    ensures Cost(Deletion(start, removed) + Insertion(start, added)) == |removed| + |added|
  {
    AppendDiffs([], Deletion(start, removed), Insertion(start, added));
  }

  // Replay -----------------------------------------------------------------------------------

  /** A hunk in its place: whatever is left of it stays, the bytes of the insertion come in. */
  lemma HunkApplies(left: Text, removed: Text, added: Text, right: Text)
    ensures var script := Deletion(|left|, removed) + Insertion(|left|, added);
            ApplyAll(left + removed + right, script) == left + Recode(added) + right
  {
    DeletionApplies(left, removed, right);
    InsertionApplies(left, added, right);
    AppendDiffs(left + removed + right, Deletion(|left|, removed), Insertion(|left|, added));
  }

  lemma HunkKeepsPrefix(t: Text, start: nat, removed: Text, added: Text, p: nat)
    requires p <= start && p <= |t|
    ensures var r := ApplyAll(t, Deletion(start, removed) + Insertion(start, added)); p <= |r| && r[..p] == t[..p]
  {
    AppendDiffs(t, Deletion(start, removed), Insertion(start, added));
    var u := ApplyAll(t, Deletion(start, removed));
    if removed != [] {
      var d := Deletion(start, removed);
      assert d[1..] == [] && u == ApplyDiff(t, d[0]);
    }
    assert p <= |u| && u[..p] == t[..p];
    if added != [] {
      var d := Insertion(start, added);
      assert d[1..] == [] && ApplyAll(u, d) == ApplyDiff(u, d[0]);
    }
  }

  /** Later hunks leave everything before their start alone. */
  lemma {:induction false} ScriptKeepsPrefix(t: Text, a: Text, b: Text, base: nat, i: nat, j: nat, p: nat)
    requires i <= |a| && j <= |b| && p <= base + j && p <= |t|
    ensures var r := ApplyAll(t, Script(a, b, base, i, j)); p <= |r| && r[..p] == t[..p]
    decreases |a| - i + |b| - j
  {
    hide HunkEnd, Lcs, Script, Deletion, Insertion, ApplyAll;
    ScriptStep(a, b, base, i, j);
    if i == |a| && j == |b| {
      NoScript(t);
    } else if Meets(a, b, i, j) {
      ScriptKeepsPrefix(t, a, b, base, i + 1, j + 1, p);
    } else {
      var e := HunkEnd(a, b, i, j);
      var hunk := Deletion(base + j, a[i..e.0]) + Insertion(base + j, b[j..e.1]);
      HunkKeepsPrefix(t, base + j, a[i..e.0], b[j..e.1], p);
      AppendDiffs(t, hunk, Script(a, b, base, e.0, e.1));
      ScriptKeepsPrefix(ApplyAll(t, hunk), a, b, base, e.0, e.1, p);
    }
  }

  /** A wrong unit left of all later hunks stays wrong. */
  lemma WrongForGood(t: Text, goal: Text, a: Text, b: Text, base: nat, i: nat, j: nat, p: nat)
    requires i <= |a| && j <= |b| && p <= base + j && p <= |t| && p <= |goal| && t[..p] != goal[..p]
    ensures ApplyAll(t, Script(a, b, base, i, j)) != goal
  {
    hide Script, ApplyAll;
    ScriptKeepsPrefix(t, a, b, base, i, j, p);
  }

  /** Scrubbing and dropping a mark: what the bytes of a hunk give back. */
  lemma RecodeShape(t: Text)
    ensures t == [] || t[0] != BOM ==> |Recode(t)| == |t|
    ensures t != [] && t[0] == BOM ==> |Recode(t)| == |t| - 1 && forall k :: 0 < k < |t| ==>
              Recode(t)[k - 1] == Scrub(t)[k]
    ensures Recode(t) == t <==> Survives(t)
  {
    RecodeFixed(t);
    if t != [] { assert !Lone(t, 0) || Scrub(t)[0] == REPLACEMENT; }
  }

  /** Only marks look like themselves shifted by one. */
  lemma {:induction false} AllMarks(t: Text, c: Unit, n: nat)
    requires t != [] && t[0] == BOM && n < |t| && Recode(t) + [c] == t
    ensures t[n] == BOM
  {
    if n > 0 {
      AllMarks(t, c, n - 1);
      RecodeShape(t);
      assert (Recode(t) + [c])[n - 1] == Scrub(t)[n];
    }
  }

  lemma InsertionLength(t: Text, start: nat, added: Text)
    ensures |ApplyAll(t, Insertion(start, added))| <= |t| + |added|
  {
    if added != [] {
      var d := Insertion(start, added);
      assert d[1..] == [] && ApplyAll(t, d) == ApplyDiff(t, d[0]);
    }
  }

  /** Nothing of `a` is left and the text is one unit short: an insertion cannot make up for it. */
  lemma ShortAtEnd(before: Text, a: Text, b: Text, after: Text, j: nat, t: Text)
    requires j <= |b| && |t| + 1 == |before| + j + |after|
    ensures ApplyAll(t, Script(a, b, |before|, |a|, j)) != before + b + after
  {
    hide Lcs;
    if j < |b| {
      var e := HunkEnd(a, b, |a|, j);
      assert a[|a|..] == [] && b[j..|b|] == b[j..];
      var script := Insertion(|before| + j, b[j..]);
      assert Script(a, b, |before|, |a|, j) == [] + script + [];
      assert [] + script + [] == script;
      InsertionLength(t, |before| + j, b[j..]);
    }
  }

  /** One mark was lost, and the next unit of `a`, itself a mark that every longest common
      subsequence needs, took its place: the text stays one unit short to the end. */
  lemma {:induction false} ShortFails(before: Text, a: Text, b: Text, after: Text, i: nat, j: nat, t: Text)
    requires i < |a| && j <= |b| && a[i] == BOM && Lcs(a, b, i, j) == 1 + Lcs(a, b, i + 1, j)
    requires t == before + b[..j] + a[i + 1..] + after
    ensures ApplyAll(t, Script(a, b, |before|, i, j)) != before + b + after
    decreases |a| - i + |b| - j
  {
    hide ApplyAll, HunkEnd, Script, Recode, Survives, Scrub;
    if Meets(a, b, i, j) {
      ShortMeets(before, a, b, after, i, j, t);
    } else {
      var e := HunkEnd(a, b, i, j);
      if e.0 > i { LcsMonotone(a, b, i + 1, j, e.0, e.1); }
      assert e.0 == i;
      LcsMonotone(a, b, i + 1, j, i + 1, e.1);
      LcsDrops(a, b, i, e.1);
      ShortHunk(before, a, b, after, i, j, t, e.1);
      var h := b[j..e.1];
      var u := before + b[..j] + Recode(h) + a[i + 1..] + after;
      NotAMark(a, b, i, j, e.1);
      RecodeShape(h);
      if Survives(h) {
        Advance(before, b, j, e.1, a[i + 1..], after);
        ShortFails(before, a, b, after, i, e.1, u);
      } else {
        assert u == before + b[..j] + Recode(h) + (a[i + 1..] + after);
        WrongHunk(before, a, b, after, i, j, e.1, u, a[i + 1..] + after);
      }
    }
  }

  /** Where the heads differ and `a` has a mark, `b` has none. */
  lemma NotAMark(a: Text, b: Text, i: nat, j: nat, j1: nat)
    requires i < |a| && a[i] == BOM && j <= j1 <= |b| && !Meets(a, b, i, j)
    ensures b[j..j1] == [] || b[j..j1][0] != BOM
  {
  }

  lemma ShortMeets(before: Text, a: Text, b: Text, after: Text, i: nat, j: nat, t: Text)
    requires Meets(a, b, i, j) && a[i] == BOM && Lcs(a, b, i, j) == 1 + Lcs(a, b, i + 1, j)
    requires t == before + b[..j] + a[i + 1..] + after
    ensures ApplyAll(t, Script(a, b, |before|, i, j)) != before + b + after
    decreases |a| - i + |b| - j, 0
  {
    hide ApplyAll, HunkEnd, Script;
    ScriptStep(a, b, |before|, i, j);
    if i + 1 == |a| {
      ShortAtEnd(before, a, b, after, j + 1, t);
    } else if a[i + 1] != b[j] {
      var goal, p := before + b + after, |before| + j + 1;
      assert t[|before| + j] == a[i + 1] && goal[|before| + j] == b[j];
      assert t[..p][p - 1] != goal[..p][p - 1];
      WrongForGood(t, goal, a, b, |before|, i + 1, j + 1, p);
    } else {
      Advance(before, b, j, j + 1, a[i + 2..], after);
      assert a[i + 1..] == b[j..j + 1] + a[i + 2..];
      assert t == before + b[..j] + b[j..j + 1] + a[i + 2..] + after;
      ShortFails(before, a, b, after, i + 1, j + 1, t);
    }
  }

  lemma ShortHunk(before: Text, a: Text, b: Text, after: Text, i: nat, j: nat, t: Text, j1: nat)
    requires i < |a| && j <= |b| && !Meets(a, b, i, j) && HunkEnd(a, b, i, j) == (i, j1)
    requires t == before + b[..j] + a[i + 1..] + after
    ensures ApplyAll(t, Script(a, b, |before|, i, j)) ==
              ApplyAll(before + b[..j] + Recode(b[j..j1]) + a[i + 1..] + after, Script(a, b, |before|, i, j1))
  {
    hide ApplyAll, HunkEnd, Lcs, Recode, Deletion, Insertion, Script;
    ScriptStep(a, b, |before|, i, j);
    var left, right := before + b[..j], a[i + 1..] + after;
    assert a[i..i] == [] && t == left + [] + right;
    HunkApplies(left, [], b[j..j1], right);
    var hunk := Deletion(|left|, []) + Insertion(|left|, b[j..j1]);
    AppendDiffs(t, hunk, Script(a, b, |before|, i, j1));
    assert left + Recode(b[j..j1]) + right == before + b[..j] + Recode(b[j..j1]) + a[i + 1..] + after;
  }

  lemma MiddleOf(before: Text, b: Text, after: Text, j: nat, j1: nat)
    requires j <= j1 <= |b|
    ensures (before + b + after)[|before| + j..|before| + j1] == b[j..j1]
  {
  }

  lemma Regroup(before: Text, x: Text, a: Text, after: Text, i: nat, i1: nat)
    requires i <= i1 <= |a|
    ensures before + x + a[i..] + after == (before + x) + a[i..i1] + (a[i1..] + after)
  {
    assert a[i..] == a[i..i1] + a[i1..];
  }

  lemma Advance(before: Text, b: Text, j: nat, j1: nat, x: Text, after: Text)
    requires j <= j1 <= |b|
    ensures before + b[..j] + b[j..j1] + x + after == before + b[..j1] + x + after
  {
    assert b[..j1] == b[..j] + b[j..j1];
  }

  /** A hunk that keeps its length but not its units is wrong for good. */
  lemma WrongHunk(before: Text, a: Text, b: Text, after: Text, i: nat, j: nat, j1: nat, u: Text, right: Text)
    requires i <= |a| && j <= j1 <= |b| && |Recode(b[j..j1])| == j1 - j && Recode(b[j..j1]) != b[j..j1]
    requires u == before + b[..j] + Recode(b[j..j1]) + right
    ensures ApplyAll(u, Script(a, b, |before|, i, j1)) != before + b + after
  {
    hide ApplyAll, Script, Recode;
    var goal, p, q := before + b + after, |before| + j, |before| + j1;
    MiddleOf(before, b, after, j, j1);
    assert u[p..q] == Recode(b[j..j1]);
    assert u[..q][p..] == u[p..q] && goal[..q][p..] == goal[p..q];
    WrongForGood(u, goal, a, b, |before|, i, j1, q);
  }

  /** A hunk whose leading mark is lost is never made good. */
  lemma LostMark(before: Text, a: Text, b: Text, after: Text, i: nat, j: nat, i1: nat, j1: nat)
    requires i <= i1 <= |a| && j < j1 <= |b| && b[j] == BOM && HunkEnd(a, b, i, j) == (i1, j1)
    ensures var u := before + b[..j] + Recode(b[j..j1]) + a[i1..] + after;
            ApplyAll(u, Script(a, b, |before|, i1, j1)) != before + b + after
  {
    hide ApplyAll, HunkEnd, Lcs, Script;
    var h := b[j..j1];
    RecodeShape(h);
    if i1 == |a| {
      var u := before + b[..j] + Recode(h) + a[i1..] + after;
      assert j1 == |b| && |u| < |before + b + after|;
      ScriptStep(a, b, |before|, i1, j1);
      NoScript(u);
    } else if Recode(h) + [a[i1]] != h {
      LostWrong(before, a, b, after, i1, j, j1, Recode(h));
    } else {
      LostTaken(before, a, b, after, i, j, i1, j1);
    }
  }

  /** The unit that comes up in the place of the mark is another. */
  lemma LostWrong(before: Text, a: Text, b: Text, after: Text, i1: nat, j: nat, j1: nat, r: Text)
    requires i1 < |a| && j < j1 <= |b| && |r| == j1 - j - 1 && r + [a[i1]] != b[j..j1]
    ensures ApplyAll(before + b[..j] + r + a[i1..] + after, Script(a, b, |before|, i1, j1)) != before + b + after
  {
    hide ApplyAll, Script;
    var u, goal := before + b[..j] + r + a[i1..] + after, before + b + after;
    var p, q := |before| + j, |before| + j1;
    MiddleOf(before, b, after, j, j1);
    NextUnitTaken(before + b[..j], r, a, i1, after);
    assert u[p..q] == r + [a[i1]];
    assert u[..q][p..] == u[p..q] && goal[..q][p..] == goal[p..q];
    WrongForGood(u, goal, a, b, |before|, i1, j1, q);
  }

  /** The unit that comes up is a mark as well. */
  lemma LostTaken(before: Text, a: Text, b: Text, after: Text, i: nat, j: nat, i1: nat, j1: nat)
    requires i <= i1 < |a| && j < j1 <= |b| && b[j] == BOM && HunkEnd(a, b, i, j) == (i1, j1)
    requires Recode(b[j..j1]) + [a[i1]] == b[j..j1]
    ensures var u := before + b[..j] + Recode(b[j..j1]) + a[i1..] + after;
            ApplyAll(u, Script(a, b, |before|, i1, j1)) != before + b + after
  {
    hide ApplyAll, HunkEnd, Script, Recode, Lcs, Meets;
    LastMark(b[j..j1], a[i1]);
    LastOf(b, j, j1);
    StillNeeded(a, b, i, j, i1, j1);
    TakenText(before, a, b, after, i1, j, j1, Recode(b[j..j1]));
    ShortFails(before, a, b, after, i1, j1, before + b[..j1] + a[i1 + 1..] + after);
  }

  lemma LastOf(b: Text, j: nat, j1: nat)
    requires j < j1 <= |b|
    ensures b[j..j1] != [] && b[j..j1][|b[j..j1]| - 1] == b[j1 - 1] && b[j..j1][0] == b[j]
  {
  }

  lemma LastMark(h: Text, c: Unit)
    requires h != [] && h[0] == BOM && Recode(h) + [c] == h
    ensures h[|h| - 1] == BOM == c
  {
    hide Recode;
    AllMarks(h, c, |h| - 1);
    assert (Recode(h) + [c])[|h| - 1] == c;
  }

  /** The unit of `a` where the hunk ends is in every longest common subsequence. */
  lemma StillNeeded(a: Text, b: Text, i: nat, j: nat, i1: nat, j1: nat)
    requires i <= i1 < |a| && j < j1 <= |b| && HunkEnd(a, b, i, j) == (i1, j1) && a[i1] == b[j1 - 1]
    ensures Lcs(a, b, i1, j1) == 1 + Lcs(a, b, i1 + 1, j1)
  {
    hide HunkEnd, Lcs;
    LcsMonotone(a, b, i, j, i1, j1 - 1);
    LcsStep(a, b, i1, j1 - 1);
    LcsDrops(a, b, i1, j1);
  }

  lemma TakenText(before: Text, a: Text, b: Text, after: Text, i1: nat, j: nat, j1: nat, r: Text)
    requires i1 < |a| && j <= j1 <= |b| && r + [a[i1]] == b[j..j1]
    ensures before + b[..j] + r + a[i1..] + after == before + b[..j1] + a[i1 + 1..] + after
  {
    var left, x := before + b[..j], a[i1 + 1..];
    NextUnitTaken(left, r, a, i1, after);
    assert b[..j1] == b[..j] + b[j..j1];
    assert left + b[j..j1] + (x + after) == before + b[..j1] + x + after;
  }

  /** Text after a short hunk: the next unit of `a` stands where the hunk should end. */
  lemma NextUnitTaken(left: Text, r: Text, a: Text, i: nat, after: Text)
    requires i < |a|
    ensures left + r + a[i..] + after == left + (r + [a[i]]) + (a[i + 1..] + after)
  {
    assert a[i..] == [a[i]] + a[i + 1..];
  }

  /** The script replays to the new text exactly when every hunk it inserts survives its bytes. */
  lemma {:induction false} ReplaysExactly(before: Text, a: Text, b: Text, after: Text, i: nat, j: nat)
    requires i <= |a| && j <= |b|
    ensures ApplyAll(before + b[..j] + a[i..] + after, Script(a, b, |before|, i, j)) == before + b + after
            <==> HunksSurvive(a, b, i, j)
    decreases |a| - i + |b| - j
  {
    hide ApplyAll, HunkEnd, Lcs, Recode, Survives, Script;
    var t := before + b[..j] + a[i..] + after;
    if i == |a| && j == |b| {
      assert t == before + b + after;
      ScriptStep(a, b, |before|, i, j);
      NoScript(t);
    } else if Meets(a, b, i, j) {
      Advance(before, b, j, j + 1, a[i + 1..], after);
      assert a[i..] == b[j..j + 1] + a[i + 1..];
      assert t == before + b[..j] + b[j..j + 1] + a[i + 1..] + after;
      ScriptStep(a, b, |before|, i, j);
      ReplaysExactly(before, a, b, after, i + 1, j + 1);
    } else {
      var e := HunkEnd(a, b, i, j);
      FirstHunk(before, a, b, after, i, j, e.0, e.1);
      var h := b[j..e.1];
      var u := before + b[..j] + Recode(h) + a[e.0..] + after;
      RecodeShape(h);
      if Survives(h) {
        Advance(before, b, j, e.1, a[e.0..], after);
        ReplaysExactly(before, a, b, after, e.0, e.1);
      } else if h != [] && h[0] == BOM {
        LostMark(before, a, b, after, i, j, e.0, e.1);
      } else {
        assert u == before + b[..j] + Recode(h) + (a[e.0..] + after);
        WrongHunk(before, a, b, after, e.0, j, e.1, u, a[e.0..] + after);
      }
    }
  }

  lemma NoScript(t: Text)
    ensures ApplyAll(t, []) == t
  {
  }

  lemma FirstHunk(before: Text, a: Text, b: Text, after: Text, i: nat, j: nat, i1: nat, j1: nat)
    requires i <= i1 <= |a| && j <= j1 <= |b| && !Meets(a, b, i, j) && (i < |a| || j < |b|)
             && HunkEnd(a, b, i, j) == (i1, j1)
    ensures ApplyAll(before + b[..j] + a[i..] + after, Script(a, b, |before|, i, j)) ==
              ApplyAll(before + b[..j] + Recode(b[j..j1]) + a[i1..] + after, Script(a, b, |before|, i1, j1))
  {
    hide ApplyAll, HunkEnd, Lcs, Recode, Deletion, Insertion, Script;
    ScriptStep(a, b, |before|, i, j);
    var t, left, right := before + b[..j] + a[i..] + after, before + b[..j], a[i1..] + after;
    Regroup(before, b[..j], a, after, i, i1);
    HunkApplies(left, a[i..i1], b[j..j1], right);
    var hunk := Deletion(|left|, a[i..i1]) + Insertion(|left|, b[j..j1]);
    AppendDiffs(t, hunk, Script(a, b, |before|, i1, j1));
    assert left + Recode(b[j..j1]) + right == before + b[..j] + Recode(b[j..j1]) + a[i1..] + after;
  }

  // The loops --------------------------------------------------------------------------------

  /** One changed region: from (i0, j0) until the heads match again or both texts end. */
  method WalkHunk(a: Text, b: Text, table: array2<nat>, i0: nat, j0: nat) returns (i: nat, j: nat)
    requires table.Length0 == |a| + 1 && table.Length1 == |b| + 1
    requires forall i, j :: 0 <= i <= |a| && 0 <= j <= |b| ==> table[i, j] == Lcs(a, b, i, j)
    requires i0 <= |a| && j0 <= |b|
    ensures (i, j) == HunkEnd(a, b, i0, j0)
  {
    hide Lcs;
    i, j := i0, j0;
    while i < |a| || j < |b|
      invariant i <= |a| && j <= |b| && HunkEnd(a, b, i, j) == HunkEnd(a, b, i0, j0)
      decreases |a| - i + |b| - j
    {
      if Meets(a, b, i, j) { return; }
      var deleteScore: int := if i < |a| then table[i + 1, j] else -1;
      var insertScore: int := if j < |b| then table[i, j + 1] else -1;
      if j >= |b| || deleteScore >= insertScore { i := i + 1; } else { j := j + 1; }
    }
  }

  /** The walk over the table, one hunk at a time. */
  method WalkTable(base: nat, a: Text, b: Text) returns (diffs: seq<Diff>)
    ensures diffs == Script(a, b, base, 0, 0)
  {
    hide Lcs, HunkEnd, Script, Deletion, Insertion;
    var table := FillTable(a, b);
    diffs := [];
    var i, j := 0, 0;
    while i < |a| || j < |b|
      invariant i <= |a| && j <= |b| && diffs + Script(a, b, base, i, j) == Script(a, b, base, 0, 0)
      decreases |a| - i + |b| - j
      modifies {}
    {
      ScriptStep(a, b, base, i, j);
      if Meets(a, b, i, j) {
        i, j := i + 1, j + 1;
      } else {
        var i1, j1 := WalkHunk(a, b, table, i, j);
        diffs := diffs + (Deletion(base + j, a[i..i1]) + Insertion(base + j, b[j..j1]));
        i, j := i1, j1;
      }
    }
    ScriptStep(a, b, base, i, j);
  }

  /** When the script of lcsDpDiffer replays: every hunk survives its bytes. Over the cell budget
      the whole changed middle is one hunk. */
  ghost predicate LcsReplays(previous: Text, next: Text, maxCells: nat) {
    var c := ChangeOf(previous, next);
    if c.removed == [] || c.added == [] || |c.removed| * |c.added| > maxCells then Survives(c.added)
    else HunksSurvive(c.removed, c.added, 0, 0)
  }

  ghost function LcsScript(previous: Text, next: Text, maxCells: nat): seq<Diff> {
    var c := ChangeOf(previous, next);
    if c.removed == [] || c.added == [] || |c.removed| * |c.added| > maxCells then SpanScript(previous, next)
    else Script(c.removed, c.added, |c.before|, 0, 0)
  }

  lemma LcsScriptReplays(previous: Text, next: Text, maxCells: nat)
    ensures ApplyAll(previous, LcsScript(previous, next, maxCells)) == next <==> LcsReplays(previous, next, maxCells)
  {
    hide Script, HunksSurvive, ApplyAll, PrefixLength, SuffixLength, Survives, SpanScript;
    var c := ChangeOf(previous, next);
    SpanScriptReplays(previous, next);
    assert previous == c.before + c.added[..0] + c.removed[0..] + c.after;
    ReplaysExactly(c.before, c.removed, c.added, c.after, 0, 0);
  }

  /** lcsDpDiffer.compute: it replays exactly when LcsReplays, and within the cell budget carries
      no more text than any script that keeps a common subsequence of the two middles. */
  method LcsDpCompute(previous: Text, next: Text, maxCells: nat) returns (diffs: seq<Diff>)
    ensures diffs == LcsScript(previous, next, maxCells)
    ensures ApplyAll(previous, diffs) == next <==> LcsReplays(previous, next, maxCells)
    ensures var c := ChangeOf(previous, next);
            |c.removed| * |c.added| <= maxCells ==>
              Cost(diffs) + 2 * Lcs(c.removed, c.added, 0, 0) == |c.removed| + |c.added|
  {
    hide Script, HunksSurvive, ApplyAll, PrefixLength, SuffixLength, Scrub, Survives;
    NothingSurvives();
    LcsEdges(ChangeOf(previous, next).removed, ChangeOf(previous, next).added);
    if previous == next {
      NoChange(next);
      NoScript(previous);
      return [];
    }
    LcsScriptReplays(previous, next, maxCells);
    var start, a, b := CommonBounds(previous, next);
    if a == [] || b == [] || |a| * |b| > maxCells {
      diffs := PrefixSuffixCompute(previous, next);
    } else {
      diffs := WalkTable(start, a, b);
      ScriptCost(a, b, start, 0, 0);
    }
  }

  lemma NothingSurvives()
    ensures Survives([])
  {
  }

  /** The split pair is lost by this differ too. */
  lemma SplitPairIsLostAgain(previous: Text, next: Text, maxCells: nat)
    requires previous == [0xD83D, 0xDE00] && next == [0xD83D, 0xDE01]
    ensures !LcsReplays(previous, next, maxCells)
  {
    SplitPairIsLost(previous, next);
    var c := ChangeOf(previous, next);
    assert previous == c.before + c.removed + c.after && next == c.before + c.added + c.after;
    if c.removed != [] && c.added != [] && |c.removed| * |c.added| <= maxCells {
      SplitChange(previous, next);
      assert HunkEnd(c.removed, c.added, 1, 1) == (1, 1);
      assert HunkEnd(c.removed, c.added, 1, 0) == (1, 1);
      assert HunkEnd(c.removed, c.added, 0, 0) == (1, 1);
      assert c.added[0..1] == c.added;
    }
  }

  lemma SplitChange(previous: Text, next: Text)
    requires previous == [0xD83D, 0xDE00] && next == [0xD83D, 0xDE01]
    ensures ChangeOf(previous, next).removed == [0xDE00] && ChangeOf(previous, next).added == [0xDE01]
  {
    assert PrefixLength(previous, next, 1) == 1 && PrefixLength(previous, next, 0) == 1;
    assert SuffixLength(previous, next, 1, 0) == 0;
  }
}
