/** What an answer of queryNullMemRecords is, in the fields of the records: who is in it, in what
    order, and who was left out. */
module NullMemAnswer {
  import opened Wrappers
  import opened JsText
  import opened JsonNumber
  import opened Json
  import opened JsonEdit
  import opened BranchState
  import opened Selection
  import opened NullMem
  import opened NullMemQuery

  // Words --------------------------------------------------------------------------------------------

  ghost predicate LetterOrDigit(u: Unit) { 97 <= u <= 122 || 48 <= u <= 57 }

  /** s[i..j] is a run of a-z and 0-9, longer than one, that neither side extends. */
  ghost predicate IsWord(s: Text, i: int, j: int) {
    && 0 <= i && i + 1 < j <= |s| && (forall k :: i <= k < j ==> LetterOrDigit(s[k]))
    && (i > 0 ==> !LetterOrDigit(s[i - 1])) && (j < |s| ==> !LetterOrDigit(s[j]))
  }

  /** All words of `s` that start at `from` or later, in order. */
  ghost predicate WordsFrom(s: Text, from: nat, spans: seq<(int, int)>) {
    && (forall k :: 0 <= k < |spans| ==> from <= spans[k].0 && IsWord(s, spans[k].0, spans[k].1))
    && (forall a, b :: 0 <= a < b < |spans| ==> spans[a].1 < spans[b].0)
    && (forall i, j :: from <= i && IsWord(s, i, j) ==> (i, j) in spans)
  }

  ghost predicate Spelled(s: Text, spans: seq<(int, int)>, tokens: seq<Text>) {
    && |tokens| == |spans|
    && forall k :: 0 <= k < |spans| ==>
         0 <= spans[k].0 <= spans[k].1 <= |s| && tokens[k] == s[spans[k].0..spans[k].1]
  }

  /** The tokens of a text are its words, each once for each place, in order. */
  lemma {:induction false} TokensAreWords(s: Text, b: nat, i: nat) returns (spans: seq<(int, int)>)
    requires b <= i <= |s| && (forall k :: b <= k < i ==> IsWordUnit(s[k])) && (b > 0 ==> !IsWordUnit(s[b - 1]))
    ensures WordsFrom(s, b, spans) && Spelled(s, spans, Tokens(s[i..], s[b..i]))
    decreases |s| - i
  {
    hide IsWord, WordsFrom, Spelled, Here, IsWordUnit;
    var run := s[b..i];
    HereSpelled(s, b, i);
    if i == |s| {
      spans := Here(b, i);
      LastWord(s, b);
    } else if IsWordUnit(s[i]) {
      assert s[i..][1..] == s[i + 1..] && run + [s[i]] == s[b..i + 1];
      spans := TokensAreWords(s, b, i + 1);
    } else {
      assert s[i..][1..] == s[i + 1..] && s[i + 1..i + 1] == [];
      var later := TokensAreWords(s, i + 1, i + 1);
      spans := Here(b, i) + later;
      WordsJoin(s, b, i, later);
      SpelledJoin(s, Here(b, i), later, if |run| > 1 then [run] else [], Tokens(s[i + 1..], []));
    }
  }

  lemma HereSpelled(s: Text, b: nat, i: nat)
    requires b <= i <= |s|
    ensures Spelled(s, Here(b, i), if |s[b..i]| > 1 then [s[b..i]] else [])
  {
  }

  lemma SpelledJoin(s: Text, here: seq<(int, int)>, later: seq<(int, int)>, ts: seq<Text>, us: seq<Text>)
    requires Spelled(s, here, ts) && Spelled(s, later, us)
    ensures Spelled(s, here + later, ts + us)
  {
  }

  /** The word that starts in a run is the run. */
  lemma OneWord(s: Text, b: nat, i: nat, p: int, q: int)
    requires b <= p <= i <= |s| && (forall k :: b <= k < i ==> IsWordUnit(s[k]))
    requires (i < |s| ==> !IsWordUnit(s[i])) && IsWord(s, p, q)
    ensures p == b && q == i
  {
  }

  lemma LastWord(s: Text, b: nat)
    requires b <= |s| && (forall k :: b <= k < |s| ==> IsWordUnit(s[k])) && (b > 0 ==> !IsWordUnit(s[b - 1]))
    ensures WordsFrom(s, b, Here(b, |s|))
  {
    forall p, q | b <= p && IsWord(s, p, q) ensures (p, q) in Here(b, |s|) { OneWord(s, b, |s|, p, q); }
  }

  /** The words from a run on are the run, if it is long enough, and those behind it. */
  lemma WordsJoin(s: Text, b: nat, i: nat, later: seq<(int, int)>)
    requires b <= i < |s| && (forall k :: b <= k < i ==> IsWordUnit(s[k])) && (b > 0 ==> !IsWordUnit(s[b - 1]))
    requires !IsWordUnit(s[i]) && WordsFrom(s, i + 1, later)
    ensures WordsFrom(s, b, Here(b, i) + later)
  {
    var spans := Here(b, i) + later;
    forall k | 0 <= k < |spans| ensures b <= spans[k].0 && IsWord(s, spans[k].0, spans[k].1) {
      if |Here(b, i)| <= k { assert spans[k] == later[k - |Here(b, i)|]; }
    }
    forall p, q | b <= p && IsWord(s, p, q) ensures (p, q) in spans {
      if p <= i { OneWord(s, b, i, p, q); } else { assert (p, q) in later; }
    }
  }

  ghost function Here(b: int, i: int): seq<(int, int)> { if i - b > 1 then [(b, i)] else [] }

  // Filters ------------------------------------------------------------------------------------------

  ghost function LabelSet(items: Items): set<Text> {
    if items.INil? then {} else LabelSet(items.tail) + (if items.head.JStr? then {items.head.s} else {})
  }

  lemma {:induction false} LabelMember(items: Items, wanted: Text)
    ensures HasLabel(items, wanted) <==> wanted in LabelSet(items)
  {
    if items.ICons? { LabelMember(items.tail, wanted); }
  }

  ghost function LabelsOf(r: Json): set<Text> {
    var v := Lookup(r, LABELS);
    if v.Some? && v.value.JArr? then LabelSet(v.value.items) else {}
  }

  /** The record has the kind, the procedure id, all the labels, and every word of the question. */
  ghost predicate Asked(query: Query, rk: Ranking, r: Json) {
    && (query.kind == None || query.kind == Some(TextAt(r, KIND)))
    && (query.procedureId == None
        || (TextAt(r, KIND) == U("procedure") && query.procedureId == Some(TextAt(r, RECORD_ID))))
    && (query.labels.Some? ==> (set wanted | wanted in query.labels.value) <= LabelsOf(r))
    && (query.q.Some? ==>
          var s, text := rk.lower(query.q.value), rk.lower(rk.text(r));
          forall i, j :: IsWord(s, i, j) ==> Includes(text, s[i..j]))
  }

  lemma LabelsAsked(labels: seq<Text>, r: Json)
    ensures (set wanted | wanted in labels) <= LabelsOf(r) <==>
            forall wanted :: wanted in labels ==>
              Lookup(r, LABELS).Some? && Lookup(r, LABELS).value.JArr?
              && HasLabel(Lookup(r, LABELS).value.items, wanted)
  {
    hide HasLabel, LabelSet;
    var v := Lookup(r, LABELS);
    if v.Some? && v.value.JArr? {
      forall wanted ensures HasLabel(v.value.items, wanted) <==> wanted in LabelsOf(r) {
        LabelMember(v.value.items, wanted);
      }
    }
    assert (set wanted | wanted in labels) <= LabelsOf(r) <==> forall wanted :: wanted in labels ==>
      wanted in LabelsOf(r);
  }

  lemma KeepsExactly(query: Query, rk: Ranking, r: Json)
    ensures Keeps(query, rk, r) <==> Asked(query, rk, r)
  {
    hide Includes, U, TextAt, LabelsOf;
    if query.labels.Some? { LabelsAsked(query.labels.value, r); }
    if query.q.Some? { WordsAsked(rk.lower(query.q.value), rk.lower(rk.text(r))); }
  }

  lemma WordsAsked(s: Text, text: Text)
    ensures (forall token :: token in Tokens(s, []) ==> Includes(text, token)) <==>
            (forall i, j :: IsWord(s, i, j) ==> Includes(text, s[i..j]))
  {
    hide Includes;
    assert s[0..] == s && s[0..0] == [];
    var spans := TokensAreWords(s, 0, 0);
    var tokens := Tokens(s, []);
    if forall token :: token in tokens ==> Includes(text, token) {
      forall i, j | IsWord(s, i, j) ensures Includes(text, s[i..j]) {
        WordStarts(s, i, j);
        assert (i, j) in spans;
        var k :| 0 <= k < |spans| && spans[k] == (i, j);
        assert tokens[k] == s[i..j];
      }
    }
  }

  lemma WordStarts(s: Text, i: int, j: int)
    requires IsWord(s, i, j)
    ensures 0 <= i < j <= |s|
  {
  }

  // Order --------------------------------------------------------------------------------------------

  /** How many words the question has. */
  ghost predicate WordCount(query: Query, rk: Ranking, n: nat) {
    if query.q.None? then n == 0
    else exists spans :: |spans| == n && WordsFrom(rk.lower(query.q.value), 0, spans)
  }

  /** `a` may stand before `b`: a higher score, or the same and newer, or the same again and an id
      that is not behind in the locale's order. */
  ghost predicate Ranked(rk: Ranking, n: nat, a: Json, b: Json) {
    var x, y := rk.round(n as real + NumberAt(a, U("priority"))), rk.round(n as real + NumberAt(b, U("priority")));
    var s, t := NumberAt(a, U("createdAt")), NumberAt(b, U("createdAt"));
    x > y || (x == y && (s > t || (s == t && rk.locale(TextAt(a, RECORD_ID), TextAt(b, RECORD_ID)) <= 0)))
  }

  lemma ComparedAs(rk: Ranking, n: nat, a: Json, b: Json)
    ensures Compare(rk, n, a, b) <= 0 <==> Ranked(rk, n, a, b)
  {
    hide U, NumberAt, TextAt;
  }

  /** `places` are where the answer was taken from: different places, in ranked order, ties by
      arrival. */
  ghost predicate TakenFrom(records: seq<Json>, query: Query, rk: Ranking, n: nat, places: seq<nat>, r: seq<Json>) {
    && |places| == |r|
    && (forall k :: 0 <= k < |r| ==> places[k] < |records| && r[k] == records[places[k]] && Asked(query, rk, r[k]))
    && (forall a, b :: 0 <= a < b < |r| ==>
          && places[a] != places[b] && Ranked(rk, n, r[a], r[b])
          && (Ranked(rk, n, r[b], r[a]) ==> places[a] < places[b]))
  }

  /** Whoever is asked for and left out found the answer full, and may stand behind all of it. */
  ghost predicate NobodyMissed(records: seq<Json>, query: Query, rk: Ranking, n: nat, places: seq<nat>, r: seq<Json>) {
    forall k :: 0 <= k < |records| && Asked(query, rk, records[k]) && k !in places ==>
      |r| == query.limit && forall a :: 0 <= a < |r| ==> Ranked(rk, n, r[a], records[k])
  }

  /** Every answer holds records that are asked for, best first, and misses none that is better. */
  lemma AnswerMeans(records: seq<Json>, query: Query, rk: Ranking, r: seq<Json>) returns (n: nat, places: seq<nat>)
    requires TotalPreorder(rk.locale) && 0 <= query.limit && IsAnswer(records, query, rk, r)
    ensures WordCount(query, rk, n) && |r| <= query.limit
    ensures TakenFrom(records, query, rk, n, places, r) && NobodyMissed(records, query, rk, n, places, r)
  {
    hide Compare, Ranked, Asked, Keeps, WordCount, TokensOf, TakenFrom, NobodyMissed;
    n := |TokensOf(query, rk)|;
    CountsWords(query, rk);
    var cmp, keep := Comparer(rk, n), Keeper(query, rk);
    var order :| IsStableSort(records, |records|, keep, cmp, order) && r == Cut(Pick(records, order), query.limit);
    places := order[..|r|];
    forall k | 0 <= k < |records| ensures Asked(query, rk, records[k]) <==> k in order {
      KeepsExactly(query, rk, records[k]);
    }
    OrderTaken(records, query, rk, n, order, r);
    OrderMissed(records, query, rk, n, order, r);
  }

  lemma OrderTaken(records: seq<Json>, query: Query, rk: Ranking, n: nat, order: seq<nat>, r: seq<Json>)
    requires TotalPreorder(rk.locale) && Ordered(records, Comparer(rk, n), order) && 0 <= query.limit
    requires forall k :: 0 <= k < |records| ==> (Asked(query, rk, records[k]) <==> k in order)
    requires r == Cut(Pick(records, order), query.limit)
    ensures TakenFrom(records, query, rk, n, order[..|r|], r)
  {
    hide Ranked, Asked, Compare, Comparer, TotalPreorder;
    forall k | 0 <= k < |r| ensures Asked(query, rk, r[k]) { assert order[k] in order; }
    forall a, b | 0 <= a < b < |r|
      ensures order[a] != order[b] && Ranked(rk, n, r[a], r[b]) && (Ranked(rk, n, r[b], r[a]) ==> order[a] < order[b])
    {
      BeforeRanked(records, rk, n, order[a], order[b]);
    }
  }

  lemma OrderMissed(records: seq<Json>, query: Query, rk: Ranking, n: nat, order: seq<nat>, r: seq<Json>)
    requires TotalPreorder(rk.locale) && Ordered(records, Comparer(rk, n), order) && 0 <= query.limit
    requires forall k :: 0 <= k < |records| ==> (Asked(query, rk, records[k]) <==> k in order)
    requires r == Cut(Pick(records, order), query.limit)
    ensures NobodyMissed(records, query, rk, n, order[..|r|], r)
  {
    hide Ranked, Asked, Compare, Comparer, TotalPreorder;
    var places := order[..|r|];
    forall k, a | 0 <= k < |records| && Asked(query, rk, records[k]) && k !in places && 0 <= a < |r|
      ensures Ranked(rk, n, r[a], records[k])
    {
      var b := Behind(order, |r|, k);
      BeforeRanked(records, rk, n, order[a], order[b]);
    }
    forall k | 0 <= k < |records| && Asked(query, rk, records[k]) && k !in places ensures |r| == query.limit {
      var b := Behind(order, |r|, k);
    }
  }

  lemma Behind(order: seq<nat>, n: nat, k: nat) returns (b: nat)
    requires n <= |order| && k in order && k !in order[..n]
    ensures n <= b < |order| && order[b] == k
  {
    b :| 0 <= b < |order| && order[b] == k;
    assert forall i :: 0 <= i < n ==> order[i] in order[..n];
  }

  lemma BeforeRanked(records: seq<Json>, rk: Ranking, n: nat, i: nat, j: nat)
    requires TotalPreorder(rk.locale) && i < |records| && j < |records| && Before(records, Comparer(rk, n), i, j)
    ensures Ranked(rk, n, records[i], records[j]) && i != j
    ensures Ranked(rk, n, records[j], records[i]) ==> i < j
  {
    hide Ranked, Compare;
    ComparedAs(rk, n, records[i], records[j]);
    ComparedAs(rk, n, records[j], records[i]);
    CompareOrders(rk, n);
    var cmp := Comparer(rk, n);
    assert cmp(records[i], records[j]) < 0 <==> cmp(records[j], records[i]) > 0;
    assert cmp(records[i], records[i]) < 0 <==> cmp(records[i], records[i]) > 0;
  }

  lemma CountsWords(query: Query, rk: Ranking)
    ensures WordCount(query, rk, |TokensOf(query, rk)|)
  {
    hide WordsFrom, Tokens;
    if query.q.Some? {
      var s := rk.lower(query.q.value);
      assert s[0..] == s && s[0..0] == [];
      var spans := TokensAreWords(s, 0, 0);
    }
  }

  /** If rounding keeps the order, a lower priority comes first only where rounding makes the scores
      equal. */
  lemma PriorityFirst(rk: Ranking, n: nat, a: Json, b: Json)
    requires forall x, y :: x <= y ==> rk.round(x) <= rk.round(y)
    requires Ranked(rk, n, a, b) && NumberAt(a, U("priority")) < NumberAt(b, U("priority"))
    ensures rk.round(n as real + NumberAt(a, U("priority"))) == rk.round(n as real + NumberAt(b, U("priority")))
  {
    hide U, NumberAt;
    var x, y := n as real + NumberAt(a, U("priority")), n as real + NumberAt(b, U("priority"));
    assert x <= y ==> rk.round(x) <= rk.round(y);
  }

  /** Stamped times are compared as the integers they are. */
  lemma StampedTime(r: Json, time: int)
    requires StampedAt(r, time)
    ensures NumberAt(r, U("createdAt")) == time as real
  {
    hide U, RealOf, ToInt;
    IntReal(Lookup(r, CREATED_AT).value.n);
  }
}
