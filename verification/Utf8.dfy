/** TextEncoder and TextDecoder on bytes: what `JsText` says of texts is what they do to UTF-8. */
module Utf8 {
  import opened Wrappers
  import opened JsText

  newtype Byte = b: int | 0 <= b < 256
  type Bytes = seq<Byte>

  // Encoding (section 3 of RFC 3629) ------------------------------------------------------------

  function PointBytes(c: int): Bytes
    requires 0 <= c < 0x110000
  {
    if c < 0x80 then [c as Byte]
    else if c < 0x800 then [(0xC0 + c / 64) as Byte, (0x80 + c % 64) as Byte]
    else if c < 0x10000 then [(0xE0 + c / 4096) as Byte, (0x80 + c / 64 % 64) as Byte, (0x80 + c % 64) as Byte]
    else [(0xF0 + c / 262144) as Byte, (0x80 + c / 4096 % 64) as Byte, (0x80 + c / 64 % 64) as Byte,
          (0x80 + c % 64) as Byte]
  }

  predicate Pairs(t: Text, i: nat) { i + 1 < |t| && IsHigh(t[i]) && IsLow(t[i + 1]) }

  function PairPoint(high: Unit, low: Unit): int { 0x10000 + (high as int - 0xD800) * 1024 + (low as int - 0xDC00) }

  /** The code point of a unit on its own: U+FFFD for a surrogate. */
  function UnitPoint(u: Unit): int { if IsHigh(u) || IsLow(u) then 0xFFFD else u as int }

  /** TextEncoder.encode, from unit i on. */
  function Encode(t: Text, i: nat): Bytes
    requires i <= |t|
    decreases |t| - i
  {
    if i == |t| then []
    else if Pairs(t, i) then PointBytes(PairPoint(t[i], t[i + 1])) + Encode(t, i + 2)
    else PointBytes(UnitPoint(t[i])) + Encode(t, i + 1)
  }

  // Decoding ------------------------------------------------------------------------------------

  /** The low six bits of a continuation byte. */
  function Tail(b: Bytes, i: nat): int { if i < |b| && 0x80 <= b[i] < 0xC0 then b[i] as int - 0x80 else -1 }

  /** The first code point and its length in bytes, if the bytes start with a well-formed one. */
  function ReadPoint(b: Bytes): (r: Option<(int, nat)>)
    ensures r.Some? ==> 1 <= r.value.1 <= |b| && 0 <= r.value.0 < 0x110000
  {
    if b == [] then None
    else if b[0] < 0x80 then Some((b[0] as int, 1))
    else if 0xC2 <= b[0] < 0xE0 && Tail(b, 1) >= 0 then Some(((b[0] as int - 0xC0) * 64 + Tail(b, 1), 2))
    else if 0xE0 <= b[0] < 0xF0 && Tail(b, 1) >= 0 && Tail(b, 2) >= 0 then
      var c := (b[0] as int - 0xE0) * 4096 + Tail(b, 1) * 64 + Tail(b, 2);
      if c < 0x800 || 0xD800 <= c < 0xE000 then None else Some((c, 3))
    else if 0xF0 <= b[0] < 0xF5 && Tail(b, 1) >= 0 && Tail(b, 2) >= 0 && Tail(b, 3) >= 0 then
      var c := (b[0] as int - 0xF0) * 262144 + Tail(b, 1) * 4096 + Tail(b, 2) * 64 + Tail(b, 3);
      if c < 0x10000 || 0x110000 <= c then None else Some((c, 4))
    else None
  }

  function PointUnits(c: int): Text
    requires 0 <= c < 0x110000
  {
    if c < 0x10000 then [c as Unit]
    else [(0xD800 + (c - 0x10000) / 1024) as Unit, (0xDC00 + (c - 0x10000) % 1024) as Unit]
  }

  /** The text of well-formed UTF-8. */
  function DecodeBytes(b: Bytes): Option<Text>
    decreases |b|
  {
    if b == [] then Some([])
    else
      var p := ReadPoint(b);
      if p.None? then None
      else
        var rest := DecodeBytes(b[p.value.1..]);
        if rest.None? then None else Some(PointUnits(p.value.0) + rest.value)
  }

  // What encoding keeps ---------------------------------------------------------------------------

  predicate IsScalar(c: int) { 0 <= c < 0xD800 || 0xE000 <= c < 0x110000 }

  lemma PointRoundTrip(c: int, rest: Bytes)
    requires IsScalar(c)
    ensures ReadPoint(PointBytes(c) + rest) == Some((c, |PointBytes(c)|))
  {
    var b := PointBytes(c) + rest;
    SixBits(c);
    if 0x80 <= c { assert b[1] == PointBytes(c)[1]; }
    if 0x800 <= c { assert b[2] == PointBytes(c)[2]; }
    if 0x10000 <= c { assert b[3] == PointBytes(c)[3]; }
  }

  lemma SixBits(c: int)
    requires 0 <= c < 0x110000
    ensures c / 64 * 64 + c % 64 == c
    ensures c / 4096 * 4096 + c / 64 % 64 * 64 + c % 64 == c
    ensures c / 262144 * 262144 + c / 4096 % 64 * 4096 + c / 64 % 64 * 64 + c % 64 == c
  {
    assert c / 4096 == c / 64 / 64 && c / 262144 == c / 4096 / 64;
  }

  lemma PairRoundTrip(high: Unit, low: Unit)
    requires IsHigh(high) && IsLow(low)
    ensures 0x10000 <= PairPoint(high, low) < 0x110000 && PointUnits(PairPoint(high, low)) == [high, low]
  {
    var h, l := high as int - 0xD800, low as int - 0xDC00;
    assert (h * 1024 + l) / 1024 == h && (h * 1024 + l) % 1024 == l;
  }

  lemma OnePoint(c: int, rest: Bytes)
    requires IsScalar(c) && DecodeBytes(rest).Some?
    ensures DecodeBytes(PointBytes(c) + rest) == Some(PointUnits(c) + DecodeBytes(rest).value)
  {
    hide PointUnits;
    PointRoundTrip(c, rest);
    var b := PointBytes(c) + rest;
    assert b[|PointBytes(c)|..] == rest;
  }

  /** Decoding what was encoded gives the text with its lone surrogates replaced. */
  lemma {:induction false} EncodeDecodes(t: Text, i: nat)
    requires i <= |t| && (i > 0 ==> !Pairs(t, i - 1))
    ensures DecodeBytes(Encode(t, i)) == Some(Scrub(t)[i..])
    decreases |t| - i
  {
    hide PointBytes, ReadPoint, PointUnits, PairPoint, DecodeBytes;
    var s := Scrub(t);
    if i == |t| {
      NoBytes();
    } else if Pairs(t, i) {
      EncodeDecodes(t, i + 2);
      PairRoundTrip(t[i], t[i + 1]);
      OnePoint(PairPoint(t[i], t[i + 1]), Encode(t, i + 2));
      assert s[i..] == [t[i], t[i + 1]] + s[i + 2..];
    } else {
      EncodeDecodes(t, i + 1);
      OnePoint(UnitPoint(t[i]), Encode(t, i + 1));
      OneUnit(UnitPoint(t[i]));
      assert s[i..] == [s[i]] + s[i + 1..];
    }
  }

  lemma NoBytes()
    ensures DecodeBytes([]) == Some([])
  {
  }

  lemma OneUnit(c: int)
    requires 0 <= c < 0x10000
    ensures PointUnits(c) == [c as Unit]
  {
  }

  lemma {:induction false} EncodeScrubbed(t: Text, i: nat)
    requires i <= |t| && (i > 0 ==> !Pairs(t, i - 1))
    ensures Encode(Scrub(t), i) == Encode(t, i)
    decreases |t| - i
  {
    hide PointBytes, PairPoint;
    if i < |t| {
      if Pairs(t, i) { EncodeScrubbed(t, i + 2); } else { EncodeScrubbed(t, i + 1); }
    }
  }

  /** The scrubbed text stands for the bytes: it is what they decode to, and it tells them apart. */
  lemma ScrubIsBytes(a: Text, b: Text)
    ensures DecodeBytes(Encode(a, 0)) == Some(Scrub(a))
    ensures Encode(a, 0) == Encode(b, 0) <==> Scrub(a) == Scrub(b)
  {
    hide DecodeBytes, Encode;
    EncodeDecodes(a, 0);
    EncodeDecodes(b, 0);
    EncodeScrubbed(a, 0);
    EncodeScrubbed(b, 0);
    assert Scrub(a)[0..] == Scrub(a) && Scrub(b)[0..] == Scrub(b);
  }
}
