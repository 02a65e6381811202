/** JavaScript strings: sequences of UTF-16 code units, lone surrogates included. */
module JsText {

  newtype Unit = x: int | 0 <= x < 0x10000
  type Text = seq<Unit>

  const BOM: Unit := 0xFEFF
  const REPLACEMENT: Unit := 0xFFFD

  /** The text of a source literal; every literal used here is ASCII. */
  function U(s: string): Text {
    seq(|s|, i requires 0 <= i < |s| => if s[i] as int < 0x10000 then s[i] as int as Unit else REPLACEMENT)
  }

  predicate IsHigh(u: Unit) { 0xD800 <= u < 0xDC00 }
  predicate IsLow(u: Unit) { 0xDC00 <= u < 0xE000 }

  /** A surrogate without its partner. */
  predicate Lone(t: Text, i: nat)
    requires i < |t|
  {
    || (IsHigh(t[i]) && !(i + 1 < |t| && IsLow(t[i + 1])))
    || (IsLow(t[i]) && !(0 < i && IsHigh(t[i - 1])))
  }

  ghost predicate WellFormed(t: Text) {
    forall i :: 0 <= i < |t| ==> !Lone(t, i)
  }

  /** What TextEncoder keeps of a string: each lone surrogate becomes U+FFFD. UTF-8 maps such
      texts one to one to byte strings, so the scrubbed text stands for the bytes. */
  function Scrub(t: Text): (r: Text) {
    seq(|t|, i requires 0 <= i < |t| => if Lone(t, i) then REPLACEMENT else t[i])
  }

  /** TextDecoder drops one leading byte order mark. */
  function Decode(bytes: Text): (r: Text) {
    if bytes != [] && bytes[0] == BOM then bytes[1..] else bytes
  }

  /** decodeText(encodeText(t)) */
  function Recode(t: Text): Text { Decode(Scrub(t)) }

  lemma WellFormedConcat(a: Text, b: Text)
    requires WellFormed(a)
    ensures WellFormed(a + b) <==> WellFormed(b)
  {
    var t := a + b;
    if a != [] { assert !Lone(a, |a| - 1); }
    forall i | 0 <= i < |a| ensures !Lone(t, i) { assert !Lone(a, i); }
    forall i | 0 <= i < |b| ensures Lone(t, |a| + i) <==> Lone(b, i) { }
    forall i | |a| <= i < |t| ensures Lone(t, i) <==> Lone(b, i - |a|) { }
  }

  lemma ScrubFixed(t: Text)
    ensures Scrub(t) == t <==> WellFormed(t)
  {
    if Scrub(t) == t {
      forall i | 0 <= i < |t| ensures !Lone(t, i) { assert Scrub(t)[i] == t[i]; }
    }
  }

  /** Text survives a trip through bytes exactly when it is well formed and starts with no mark. */
  lemma RecodeFixed(t: Text)
    ensures Recode(t) == t <==> WellFormed(t) && (t == [] || t[0] != BOM)
  {
    ScrubFixed(t);
  }
}
