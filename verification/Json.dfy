/** JSON values, JSON.stringify and JSON.parse (sections 2 to 8 of RFC 8259). */
module Json {
  import opened Wrappers
  import opened JsText
  import opened JsonNumber

  datatype Json =
    | JNull
    | JBool(b: bool)
    | JNum(n: Num)
    | JStr(s: Text)
    | JArr(items: Items)
    | JObj(members: Members)

  datatype Items = INil | ICons(head: Json, tail: Items)

  /** Own enumerable properties in insertion order. */
  datatype Members = MNil | MCons(key: Text, value: Json, tail: Members)

  function ToMap(m: Members): map<Text, Json> {
    match m
    case MNil => map[]
    case MCons(k, v, t) => ToMap(t)[k := v]
  }

  /** Numbers are in shortest form and no object names a key twice. */
  predicate Wf(j: Json) {
    match j
    case JNum(n) => Valid(n)
    case JArr(items) => WfItems(items)
    case JObj(members) => WfMembers(members)
    case _ => true
  }

  predicate WfItems(items: Items) {
    items.ICons? ==> Wf(items.head) && WfItems(items.tail)
  }

  predicate WfMembers(m: Members) {
    m.MCons? ==> m.key !in ToMap(m.tail) && Wf(m.value) && WfMembers(m.tail)
  }

  // Printing ----------------------------------------------------------------------------

  const QUOTE: Unit := 34
  const BACKSLASH: Unit := 92
  const COMMA: Unit := 44
  const COLON: Unit := 58
  const OPEN_ARRAY: Unit := 91
  const CLOSE_ARRAY: Unit := 93
  const OPEN_OBJECT: Unit := 123
  const CLOSE_OBJECT: Unit := 125

  function HexUnit(d: int): (u: Unit)
    requires 0 <= d < 16
  {
    if d < 10 then (48 + d) as Unit else (87 + d) as Unit
  }

  function HexEscape(u: Unit): Text {
    var v := u as int;
    [BACKSLASH, 117, HexUnit(v / 4096), HexUnit(v / 256 % 16), HexUnit(v / 16 % 16), HexUnit(v % 16)]
  }

  /** QuoteJSONString of ECMA-262 for one unit: short escapes, \u for other controls and for
      lone surrogates, the unit itself otherwise. */
  function EscapeUnit(s: Text, i: nat): Text
    requires i < |s|
  {
    var u := s[i];
    if u == 8 then [BACKSLASH, 98]
    else if u == 9 then [BACKSLASH, 116]
    else if u == 10 then [BACKSLASH, 110]
    else if u == 12 then [BACKSLASH, 102]
    else if u == 13 then [BACKSLASH, 114]
    else if u == QUOTE || u == BACKSLASH then [BACKSLASH, u]
    else if u < 32 || Lone(s, i) then HexEscape(u)
    else [u]
  }

  function StringBody(s: Text, i: nat): Text
    requires i <= |s|
    decreases |s| - i
  {
    if i == |s| then [] else EscapeUnit(s, i) + StringBody(s, i + 1)
  }

  function StringText(s: Text): Text { [QUOTE] + StringBody(s, 0) + [QUOTE] }

  /** JSON.stringify on a value whose objects are written in insertion order. */
  function Write(j: Json): Text {
    match j
    case JNull => U("null")
    case JBool(b) => if b then U("true") else U("false")
    case JNum(n) => NumText(n)
    case JStr(s) => StringText(s)
    case JArr(items) => [OPEN_ARRAY] + ItemsText(items) + [CLOSE_ARRAY]
    case JObj(members) => [OPEN_OBJECT] + MembersText(members) + [CLOSE_OBJECT]
  }

  function ItemsText(items: Items): Text {
    match items
    case INil => []
    case ICons(h, t) => Write(h) + (if t.INil? then [] else [COMMA] + ItemsText(t))
  }

  function MembersText(m: Members): Text {
    match m
    case MNil => []
    case MCons(k, v, t) => StringText(k) + [COLON] + Write(v) + (if t.MNil? then [] else [COMMA] + MembersText(t))
  }

  // Reading -----------------------------------------------------------------------------

  predicate IsSpace(u: Unit) { u == 32 || u == 9 || u == 10 || u == 13 }

  function SkipSpace(t: Text): (r: Text)
    ensures |r| <= |t|
  {
    if t != [] && IsSpace(t[0]) then SkipSpace(t[1..]) else t
  }

  function HexValue(u: Unit): (r: int)
    ensures -1 <= r < 16
  {
    if IsDigit(u) then u as int - 48
    else if 97 <= u < 103 then u as int - 87
    else if 65 <= u < 71 then u as int - 55
    else -1
  }

  /** One escape after its backslash: the unit and the rest. */
  function ParseEscape(t: Text): (r: Option<(Unit, Text)>)
    ensures r.Some? ==> |r.value.1| < |t|
  {
    if t == [] then None
    else if t[0] == QUOTE || t[0] == BACKSLASH || t[0] == 47 then Some((t[0], t[1..]))
    else if t[0] == 98 then Some((8, t[1..]))
    else if t[0] == 116 then Some((9, t[1..]))
    else if t[0] == 110 then Some((10, t[1..]))
    else if t[0] == 102 then Some((12, t[1..]))
    else if t[0] == 114 then Some((13, t[1..]))
    else if t[0] == 117 && |t| >= 5 then
      var a, b, c, d := HexValue(t[1]), HexValue(t[2]), HexValue(t[3]), HexValue(t[4]);
      if a < 0 || b < 0 || c < 0 || d < 0 then None
      else Some(((a * 4096 + b * 256 + c * 16 + d) as Unit, t[5..]))
    else None
  }

  /** String contents up to the closing quote. */
  function ParseString(t: Text): (r: Option<(Text, Text)>)
    ensures r.Some? ==> |r.value.1| < |t|
    decreases |t|
  {
    if t == [] then None
    else if t[0] == QUOTE then Some(([], t[1..]))
    else if t[0] < 32 then None
    else
      var first := if t[0] == BACKSLASH then ParseEscape(t[1..]) else Some((t[0], t[1..]));
      if first.None? then None
      else
        var rest := ParseString(first.value.1);
        if rest.None? then None else Some(([first.value.0] + rest.value.0, rest.value.1))
  }

  function CountNumberUnits(t: Text): (c: nat)
    ensures c <= |t|
  {
    if t == [] || !IsNumberUnit(t[0]) then 0 else 1 + CountNumberUnits(t[1..])
  }

  /** Assigning a repeated key keeps its first place and takes its last value. */
  function Assign(k: Text, v: Json, later: Members): Members {
    if k in ToMap(later) then MCons(k, ToMap(later)[k], Delete(later, k)) else MCons(k, v, later)
  }

  function Delete(m: Members, k: Text): Members {
    match m
    case MNil => MNil
    case MCons(x, v, t) => if x == k then t else MCons(x, v, Delete(t, k))
  }

  /** A literal name or a number. */
  function ParseScalar(t: Text): (r: Option<(Json, Text)>)
    ensures r.Some? ==> |r.value.1| < |t|
  {
    if U("null") <= t then Some((JNull, t[4..]))
    else if U("true") <= t then Some((JBool(true), t[4..]))
    else if U("false") <= t then Some((JBool(false), t[5..]))
    else
      var c := CountNumberUnits(t);
      var n := ParseNumber(t[..c]);
      if c == 0 || n.None? then None else Some((JNum(n.value), t[c..]))
  }

  /** A member name and its colon. */
  function ParseKey(text: Text): (r: Option<(Text, Text)>)
    ensures r.Some? ==> |r.value.1| < |text|
  {
    var t := SkipSpace(text);
    if t == [] || t[0] != QUOTE then None
    else
      var key := ParseString(t[1..]);
      if key.None? then None
      else
        var colon := SkipSpace(key.value.1);
        if colon == [] || colon[0] != COLON then None else Some((key.value.0, colon[1..]))
  }

  function ParseValue(text: Text): (r: Option<(Json, Text)>)
    ensures r.Some? ==> |r.value.1| < |text|
    decreases |text|, 0
  {
    var t := SkipSpace(text);
    if t == [] then None
    else if t[0] == QUOTE then
      var s := ParseString(t[1..]);
      if s.None? then None else Some((JStr(s.value.0), s.value.1))
    else if t[0] == OPEN_ARRAY then
      var after := SkipSpace(t[1..]);
      if after != [] && after[0] == CLOSE_ARRAY then Some((JArr(INil), after[1..]))
      else
        var items := ParseItems(t[1..]);
        if items.None? then None else Some((JArr(items.value.0), items.value.1))
    else if t[0] == OPEN_OBJECT then
      var after := SkipSpace(t[1..]);
      if after != [] && after[0] == CLOSE_OBJECT then Some((JObj(MNil), after[1..]))
      else
        var members := ParseMembers(t[1..]);
        if members.None? then None else Some((JObj(members.value.0), members.value.1))
    else ParseScalar(t)
  }

  /** One or more comma-separated values and the closing bracket. */
  function ParseItems(t: Text): (r: Option<(Items, Text)>)
    ensures r.Some? ==> |r.value.1| < |t|
    decreases |t|, 1
  {
    var v := ParseValue(t);
    if v.None? then None
    else
      var next := SkipSpace(v.value.1);
      if next != [] && next[0] == CLOSE_ARRAY then Some((ICons(v.value.0, INil), next[1..]))
      else if next != [] && next[0] == COMMA then
        var rest := ParseItems(next[1..]);
        if rest.None? then None else Some((ICons(v.value.0, rest.value.0), rest.value.1))
      else None
  }

  /** One or more comma-separated members and the closing brace. */
  function ParseMembers(t: Text): (r: Option<(Members, Text)>)
    ensures r.Some? ==> |r.value.1| < |t|
    decreases |t|, 1
  {
    var key := ParseKey(t);
    if key.None? then None
    else
      var v := ParseValue(key.value.1);
      if v.None? then None
      else
        var next := SkipSpace(v.value.1);
        if next != [] && next[0] == CLOSE_OBJECT then Some((MCons(key.value.0, v.value.0, MNil), next[1..]))
        else if next != [] && next[0] == COMMA then
          var rest := ParseMembers(next[1..]);
          if rest.None? then None else Some((Assign(key.value.0, v.value.0, rest.value.0), rest.value.1))
        else None
  }

  /** JSON.parse: one value and nothing but white space after it. */
  function Parse(t: Text): Option<Json> {
    var v := ParseValue(t);
    if v.Some? && SkipSpace(v.value.1) == [] then Some(v.value.0) else None
  }

  // Round trip --------------------------------------------------------------------------

  /** The value with every -0 read as 0. */
  function FoldZero(j: Json): Json {
    match j
    case JNum(n) => JNum(Fold(n))
    case JArr(items) => JArr(FoldItems(items))
    case JObj(m) => JObj(FoldMembers(m))
    case _ => j
  }

  function FoldItems(items: Items): Items {
    match items
    case INil => INil
    case ICons(h, t) => ICons(FoldZero(h), FoldItems(t))
  }

  function FoldMembers(m: Members): (r: Members)
    ensures ToMap(r).Keys == ToMap(m).Keys
  {
    match m
    case MNil => MNil
    case MCons(k, v, t) => MCons(k, FoldZero(v), FoldMembers(t))
  }

  lemma HexDigits(v: int)
    requires 0 <= v < 0x10000
    ensures v / 4096 < 16 && v / 4096 * 4096 + v / 256 % 16 * 256 + v / 16 % 16 * 16 + v % 16 == v
  {
    assert v / 256 == (v / 16) / 16 && v / 4096 == (v / 256) / 16;
  }

  lemma HexRoundTrip(u: Unit, rest: Text)
    ensures ParseEscape(HexEscape(u)[1..] + rest) == Some((u, rest))
  {
    var t := HexEscape(u)[1..] + rest;
    assert t[5..] == rest;
    HexDigits(u as int);
  }

  lemma EscapeRoundTrip(s: Text, i: nat, rest: Text)
    requires i < |s|
    ensures var e := EscapeUnit(s, i); var t := e + rest;
            && t[0] >= 32 && t[0] != QUOTE
            && (if t[0] == BACKSLASH then ParseEscape(t[1..]) == Some((s[i], rest)) else t[0] == s[i] && t[1..] == rest)
  {
    var e := EscapeUnit(s, i);
    var t := e + rest;
    assert t[1..] == e[1..] + rest;
    HexRoundTrip(s[i], rest);
    if |e| == 2 { assert t[1..][1..] == rest; }
  }

  /** The unit stands for itself between quotes. */
  ghost predicate Plain(s: Text, i: nat)
    requires i < |s|
  {
    s[i] >= 32 && s[i] != QUOTE && s[i] != BACKSLASH && !Lone(s, i)
  }

  /** Which units are escaped, and in which of the forms that read back to them: none, the short
      one where there is one, else four lower-case hex digits. */
  lemma EscapeForms(s: Text, i: nat)
    requires i < |s|
    ensures var e := EscapeUnit(s, i);
            && (Plain(s, i) ==> e == [s[i]])
            && (!Plain(s, i) ==> |e| == (if s[i] in {8, 9, 10, 12, 13, QUOTE, BACKSLASH} then 2 else 6))
            && (!Plain(s, i) ==> e[0] == BACKSLASH && ParseEscape(e[1..]) == Some((s[i], [])))
            && (|e| == 6 ==> e[1] == 117 && forall k :: 2 <= k < 6 ==> IsDigit(e[k]) || 97 <= e[k] < 103)
  {
    hide ParseEscape, Lone;
    var e := EscapeUnit(s, i);
    EscapeRoundTrip(s, i, []);
    assert e + [] == e;
  }

  // Printed text has no white space of its own -----------------------------------------------

  ghost predicate NoBlank(t: Text) { forall i :: 0 <= i < |t| ==> t[i] > 32 }

  ghost predicate Blankless(j: Json) {
    match j
    case JStr(s) => 32 !in s
    case JArr(items) => BlanklessItems(items)
    case JObj(m) => BlanklessMembers(m)
    case _ => true
  }

  ghost predicate BlanklessItems(items: Items) { items.ICons? ==> Blankless(items.head) && BlanklessItems(items.tail) }

  ghost predicate BlanklessMembers(m: Members) {
    m.MCons? ==> 32 !in m.key && Blankless(m.value) && BlanklessMembers(m.tail)
  }

  /** All white space in printed text is a blank of some string or key. */
  lemma {:induction false} WriteIsCompact(j: Json)
    requires Blankless(j)
    ensures NoBlank(Write(j))
  {
    match j
    case JNum(n) => NumberUnits(n);
    case JStr(s) => StringIsCompact(s, 0);
    case JArr(items) => ItemsAreCompact(items);
    case JObj(m) => MembersAreCompact(m);
    case JBool(_) =>
    case JNull =>
  }

  lemma {:induction false} ItemsAreCompact(items: Items)
    requires BlanklessItems(items)
    ensures NoBlank(ItemsText(items))
  {
    if items.ICons? {
      WriteIsCompact(items.head);
      ItemsAreCompact(items.tail);
    }
  }

  lemma {:induction false} MembersAreCompact(m: Members)
    requires BlanklessMembers(m)
    ensures NoBlank(MembersText(m))
  {
    hide NoBlank, Write, StringText;
    Marks();
    if m.MCons? {
      var rest := if m.tail.MNil? then [] else [COMMA] + MembersText(m.tail);
      StringIsCompact(m.key, 0);
      WriteIsCompact(m.value);
      MembersAreCompact(m.tail);
      QuotedIsCompact(m.key);
      BlankConcat([COMMA], MembersText(m.tail));
      BlankConcat(StringText(m.key), [COLON]);
      BlankConcat(StringText(m.key) + [COLON], Write(m.value));
      BlankConcat(StringText(m.key) + [COLON] + Write(m.value), rest);
    }
  }

  lemma Marks()
    ensures NoBlank([]) && NoBlank([COMMA]) && NoBlank([COLON])
  {
  }

  lemma QuotedIsCompact(s: Text)
    requires NoBlank(StringBody(s, 0))
    ensures NoBlank(StringText(s))
  {
  }

  lemma BlankConcat(a: Text, b: Text)
    ensures NoBlank(a + b) <==> NoBlank(a) && NoBlank(b)
  {
    var t := a + b;
    assert forall i :: 0 <= i < |a| ==> t[i] == a[i];
    assert forall i :: 0 <= i < |b| ==> t[|a| + i] == b[i];
  }

  lemma {:induction false} StringIsCompact(s: Text, i: nat)
    requires i <= |s| && 32 !in s
    ensures NoBlank(StringBody(s, i))
    decreases |s| - i
  {
    hide EscapeUnit, ParseEscape, Lone;
    if i < |s| {
      StringIsCompact(s, i + 1);
      EscapeForms(s, i);
      EscapeIsCompact(s, i);
    }
  }

  lemma EscapeIsCompact(s: Text, i: nat)
    requires i < |s| && s[i] != 32
    ensures NoBlank(EscapeUnit(s, i))
  {
  }

  lemma {:induction false} StringRoundTrip(s: Text, i: nat, rest: Text)
    requires i <= |s|
    ensures ParseString(StringBody(s, i) + [QUOTE] + rest) == Some((s[i..], rest))
    decreases |s| - i
  {
    hide EscapeUnit, ParseEscape, Lone;
    var t := StringBody(s, i) + [QUOTE] + rest;
    if i == |s| {
      assert t[1..] == rest && s[i..] == [];
    } else {
      var more := StringBody(s, i + 1) + [QUOTE] + rest;
      assert t == EscapeUnit(s, i) + more;
      EscapeRoundTrip(s, i, more);
      StringRoundTrip(s, i + 1, rest);
      assert [s[i]] + s[i + 1..] == s[i..];
    }
  }

  /** What may follow a printed value: nothing that could extend a number. */
  predicate Stops(rest: Text) { rest == [] || !IsNumberUnit(rest[0]) }

  lemma {:induction false} CountTaken(t: Text, rest: Text)
    requires (forall i :: 0 <= i < |t| ==> IsNumberUnit(t[i])) && Stops(rest)
    ensures CountNumberUnits(t + rest) == |t|
    decreases |t|
  {
    if t == [] {
      assert t + rest == rest;
    } else {
      assert (t + rest)[1..] == t[1..] + rest;
      CountTaken(t[1..], rest);
    }
  }

  lemma NumberValue(n: Num, rest: Text)
    requires Valid(n) && Stops(rest)
    ensures ParseScalar(NumText(n) + rest) == Some((JNum(Fold(n)), rest))
  {
    hide NumText, Fold, Valid, ParseNumber;
    var t := NumText(n) + rest;
    NumberUnits(n);
    CountTaken(NumText(n), rest);
    NumberRoundTrip(n);
    assert t[..|NumText(n)|] == NumText(n) && t[|NumText(n)|..] == rest;
    assert t[0] == NumText(n)[0];
    assert U("null")[0] == 110 && U("true")[0] == 116 && U("false")[0] == 102;
  }

  lemma StringValue(s: Text, rest: Text)
    ensures ParseValue(StringText(s) + rest) == Some((JStr(s), rest))
  {
    var t := StringText(s) + rest;
    assert t[1..] == StringBody(s, 0) + [QUOTE] + rest;
    StringRoundTrip(s, 0, rest);
    assert s[0..] == s;
  }

  lemma LiteralValue(j: Json, rest: Text)
    requires j.JNull? || j.JBool?
    ensures ParseScalar(Write(j) + rest) == Some((j, rest))
  {
    var t := Write(j) + rest;
    assert U("null")[0] == 110 && U("true")[0] == 116 && U("false")[0] == 102;
    assert t[..|Write(j)|] == Write(j) && t[|Write(j)|..] == rest;
  }

  /** A printed value starts with no space and no closing bracket. */
  lemma {:induction false} WriteStarts(j: Json)
    ensures Write(j) != [] && !IsSpace(Write(j)[0]) && Write(j)[0] != CLOSE_ARRAY && Write(j)[0] != CLOSE_OBJECT
  {
    if j.JNum? { NumberUnits(j.n); }
    assert U("null")[0] == 110 && U("true")[0] == 116 && U("false")[0] == 102;
  }

  /** Reading a printed value gives it back, whatever text follows. */
  lemma {:induction false} ValueRoundTrip(j: Json, rest: Text)
    requires Wf(j) && Stops(rest)
    ensures ParseValue(Write(j) + rest) == Some((FoldZero(j), rest))
    decreases j, 1
  {
    var t := Write(j) + rest;
    WriteStarts(j);
    assert t[0] == Write(j)[0];
    match j
    case JNull => LiteralValue(j, rest);
    case JBool(_) => LiteralValue(j, rest);
    case JNum(n) => NumberValue(n, rest); NumberUnits(n);
    case JStr(s) => StringValue(s, rest);
    case JArr(items) => ArrayValue(items, rest);
    case JObj(m) => ObjectValue(m, rest);
  }

  lemma {:induction false} ArrayValue(items: Items, rest: Text)
    requires WfItems(items)
    ensures ParseValue(Write(JArr(items)) + rest) == Some((JArr(FoldItems(items)), rest))
    decreases items, 1
  {
    var t := Write(JArr(items)) + rest;
    if items.INil? {
      assert t[1..] == [CLOSE_ARRAY] + rest && t[1..][1..] == rest;
    } else {
      assert t[1..] == ItemsText(items) + [CLOSE_ARRAY] + rest;
      WriteStarts(items.head);
      assert t[1..][0] == Write(items.head)[0];
      ItemsRoundTrip(items, rest);
    }
  }

  lemma {:induction false} ObjectValue(m: Members, rest: Text)
    requires WfMembers(m)
    ensures ParseValue(Write(JObj(m)) + rest) == Some((JObj(FoldMembers(m)), rest))
    decreases m, 1
  {
    hide ParseValue, ParseMembers, WfMembers;
    var t := Write(JObj(m)) + rest;
    if m.MNil? {
      NoMembers(rest);
    } else {
      var body := MembersText(m) + [CLOSE_OBJECT] + rest;
      assert t[1..] == body;
      MembersSplit(m, rest);
      MembersRoundTrip(m, rest);
      ObjectOpens(t, body, FoldMembers(m), rest);
    }
  }

  lemma NoMembers(rest: Text)
    ensures ParseValue(Write(JObj(MNil)) + rest) == Some((JObj(MNil), rest))
  {
    hide ParseMembers, ParseItems, ParseScalar, ParseString;
    var t := Write(JObj(MNil)) + rest;
    assert t[0] == OPEN_OBJECT && t[1..] == [CLOSE_OBJECT] + rest && t[1..][1..] == rest;
  }

  lemma ObjectOpens(t: Text, body: Text, m: Members, rest: Text)
    requires t != [] && t[0] == OPEN_OBJECT && t[1..] == body
    requires body != [] && body[0] == QUOTE && ParseMembers(body) == Some((m, rest))
    ensures ParseValue(t) == Some((JObj(m), rest))
  {
    hide ParseMembers, ParseItems, ParseScalar, ParseString;
    assert SkipSpace(t) == t && SkipSpace(body) == body;
  }

  /** What follows the first member's value. */
  function AfterMember(m: Members, rest: Text): Text
    requires m.MCons?
  {
    if m.tail.MNil? then [CLOSE_OBJECT] + rest else [COMMA] + (MembersText(m.tail) + [CLOSE_OBJECT] + rest)
  }

  lemma {:induction false} MembersSplit(m: Members, rest: Text)
    requires m.MCons?
    ensures var t := MembersText(m) + [CLOSE_OBJECT] + rest;
            t == StringText(m.key) + ([COLON] + (Write(m.value) + AfterMember(m, rest))) && t[0] == QUOTE
  {
    var tail := if m.tail.MNil? then [] else [COMMA] + MembersText(m.tail);
    Regroup(StringText(m.key), [COLON], Write(m.value), tail, [CLOSE_OBJECT], rest);
    assert AfterMember(m, rest) == tail + [CLOSE_OBJECT] + rest;
  }

  lemma Regroup(a: Text, b: Text, c: Text, d: Text, e: Text, f: Text)
    ensures a + b + c + d + e + f == a + (b + (c + (d + e + f)))
  {
  }

  /** One member read, the rest of the object still to come. */
  lemma {:induction false} MemberStep(t: Text, key: Text, value: Text, v: Json, next: Text)
    requires ParseKey(t) == Some((key, value)) && ParseValue(value) == Some((v, next))
    requires next != [] && (next[0] == CLOSE_OBJECT || next[0] == COMMA)
    ensures next[0] == CLOSE_OBJECT ==> ParseMembers(t) == Some((MCons(key, v, MNil), next[1..]))
    ensures next[0] == COMMA && ParseMembers(next[1..]).Some? ==>
              ParseMembers(t) == Some((Assign(key, v, ParseMembers(next[1..]).value.0),
                                       ParseMembers(next[1..]).value.1))
  {
    assert SkipSpace(next) == next;
  }

  lemma KeyRoundTrip(key: Text, rest: Text)
    ensures ParseKey(StringText(key) + ([COLON] + rest)) == Some((key, rest))
  {
    var colon := [COLON] + rest;
    var t := StringText(key) + colon;
    assert t[1..] == StringBody(key, 0) + [QUOTE] + colon;
    StringRoundTrip(key, 0, colon);
    assert key[0..] == key && colon[1..] == rest;
  }

  lemma {:induction false} ItemsRoundTrip(items: Items, rest: Text)
    requires WfItems(items) && items.ICons?
    ensures ParseItems(ItemsText(items) + [CLOSE_ARRAY] + rest) == Some((FoldItems(items), rest))
    decreases items, 0
  {
    var t := ItemsText(items) + [CLOSE_ARRAY] + rest;
    var next := if items.tail.INil? then [CLOSE_ARRAY] + rest
                else [COMMA] + (ItemsText(items.tail) + [CLOSE_ARRAY] + rest);
    assert t == Write(items.head) + next;
    ValueRoundTrip(items.head, next);
    if items.tail.INil? {
      assert next[1..] == rest;
    } else {
      assert next[1..] == ItemsText(items.tail) + [CLOSE_ARRAY] + rest;
      ItemsRoundTrip(items.tail, rest);
    }
  }

  lemma {:induction false} MembersRoundTrip(m: Members, rest: Text)
    requires WfMembers(m) && m.MCons?
    ensures ParseMembers(MembersText(m) + [CLOSE_OBJECT] + rest) == Some((FoldMembers(m), rest))
    decreases m, 0
  {
    var t, next := MembersText(m) + [CLOSE_OBJECT] + rest, AfterMember(m, rest);
    MembersSplit(m, rest);
    KeyRoundTrip(m.key, Write(m.value) + next);
    ValueRoundTrip(m.value, next);
    MemberStep(t, m.key, Write(m.value) + next, FoldZero(m.value), next);
    if m.tail.MNil? {
      assert next[1..] == rest;
    } else {
      assert next[1..] == MembersText(m.tail) + [CLOSE_OBJECT] + rest;
      MembersRoundTrip(m.tail, rest);
    }
  }

  /** JSON.parse undoes JSON.stringify, for every well-formed value. */
  lemma ParseWrite(j: Json)
    requires Wf(j)
    ensures Parse(Write(j)) == Some(FoldZero(j))
  {
    assert Write(j) + [] == Write(j);
    ValueRoundTrip(j, []);
  }
}
