/** JSON numbers as JavaScript prints them. A finite double is carried by its sign and the
    shortest decimal digits that identify it, as Number::toString of ECMA-262 does. */
module JsonNumber {
  import opened Wrappers
  import opened JsText

  newtype Digit = d: int | 0 <= d < 10
  type Digits = seq<Digit>

  /** (-1)^neg * 0.d1 d2 ... dk * 10^point; no digits at all is zero. */
  datatype Num = Num(neg: bool, digits: Digits, point: int)

  predicate Valid(n: Num) {
    if n.digits == [] then n.point == 0 else n.digits[0] != 0 && n.digits[|n.digits| - 1] != 0
  }

  const ZERO := Num(false, [], 0)

  type ValidNum = n: Num | Valid(n) witness Num(false, [], 0)

  /** -0 and 0 print alike. */
  function Fold(n: Num): Num { if n.digits == [] then ZERO else n }

  const MINUS: Unit := 45
  const PLUS: Unit := 43
  const DOT: Unit := 46
  const LOWER_E: Unit := 101
  const UPPER_E: Unit := 69

  predicate IsDigit(u: Unit) { 48 <= u < 58 }
  function DigitOf(u: Unit): Digit requires IsDigit(u) { (u as int - 48) as Digit }
  function DigitUnit(d: Digit): Unit { (48 + d as int) as Unit }

  function DigitsText(ds: Digits): (t: Text)
    ensures |t| == |ds| && forall i :: 0 <= i < |t| ==> IsDigit(t[i]) && DigitOf(t[i]) == ds[i]
  {
    seq(|ds|, i requires 0 <= i < |ds| => DigitUnit(ds[i]))
  }

  function ReadDigits(t: Text): (ds: Digits)
    requires forall i :: 0 <= i < |t| ==> IsDigit(t[i])
    ensures |ds| == |t|
  {
    seq(|t|, i requires 0 <= i < |t| => DigitOf(t[i]))
  }

  function Zeros(n: nat): (z: Digits)
    ensures |z| == n && forall i :: 0 <= i < n ==> z[i] == 0
  {
    seq(n, i => 0)
  }

  // Decimal notation of naturals --------------------------------------------------------

  function Dec(m: nat): (ds: Digits)
    ensures ds != [] && (m > 0 ==> ds[0] != 0)
  {
    if m < 10 then [m as Digit] else Dec(m / 10) + [(m % 10) as Digit]
  }

  function DecValue(ds: Digits): nat {
    if ds == [] then 0 else 10 * DecValue(ds[..|ds| - 1]) + ds[|ds| - 1] as int
  }

  lemma {:induction false} DecRoundTrip(m: nat)
    ensures DecValue(Dec(m)) == m
  {
    if m >= 10 {
      DecRoundTrip(m / 10);
      assert Dec(m)[..|Dec(m)| - 1] == Dec(m / 10);
    } else {
      assert Dec(m)[..0] == [];
    }
  }

  // Printing ----------------------------------------------------------------------------

  function ExponentText(e: int): Text {
    [LOWER_E] + (if e < 0 then [MINUS] + DigitsText(Dec(-e)) else [PLUS] + DigitsText(Dec(e)))
  }

  function MagnitudeText(ds: Digits, n: int): Text
    requires ds != []
  {
    var k := |ds|;
    if k <= n <= 21 then DigitsText(ds + Zeros(n - k))
    else if 0 < n <= 21 then DigitsText(ds[..n]) + [DOT] + DigitsText(ds[n..])
    else if -6 < n <= 0 then DigitsText([0]) + [DOT] + DigitsText(Zeros(-n) + ds)
    else if k == 1 then DigitsText(ds) + ExponentText(n - 1)
    else DigitsText(ds[..1]) + [DOT] + DigitsText(ds[1..]) + ExponentText(n - 1)
  }

  function NumText(n: Num): Text {
    if n.digits == [] then DigitsText([0])
    else (if n.neg then [MINUS] else []) + MagnitudeText(n.digits, n.point)
  }

  // Reading -----------------------------------------------------------------------------

  function CountDigits(t: Text): (c: nat)
    ensures c <= |t| && (forall i :: 0 <= i < c ==> IsDigit(t[i])) && (c < |t| ==> !IsDigit(t[c]))
  {
    if t == [] || !IsDigit(t[0]) then 0 else 1 + CountDigits(t[1..])
  }

  /** The exponent part of a number: empty, or e, an optional sign and digits to the end. */
  function ParseExponent(t: Text): Option<int> {
    if t == [] then Some(0)
    else if t[0] != LOWER_E && t[0] != UPPER_E then None
    else
      var signed := |t| > 1 && (t[1] == MINUS || t[1] == PLUS);
      var body := if signed then t[2..] else t[1..];
      if body == [] || CountDigits(body) != |body| then None
      else
        var v: int := DecValue(ReadDigits(body));
        Some(if signed && t[1] == MINUS then -v else v)
  }

  /** The value of the digits, with zeros at either end removed. */
  function Trim(neg: bool, ds: Digits, point: int): (n: Num)
    ensures Valid(n)
    decreases |ds|
  {
    if ds == [] then Num(neg, [], 0)
    else if ds[0] == 0 then Trim(neg, ds[1..], point - 1)
    else if ds[|ds| - 1] == 0 then Trim(neg, ds[..|ds| - 1], point)
    else Num(neg, ds, point)
  }

  /** The digits after an optional point, and what follows them. */
  function ParseFraction(t: Text): (r: Option<(Digits, Text)>) {
    if t == [] || t[0] != DOT then Some(([], t))
    else
      var f := CountDigits(t[1..]);
      if f == 0 then None else Some((ReadDigits(t[1..][..f]), t[1..][f..]))
  }

  /** Section 6 of RFC 8259: int, optional fraction, optional exponent. */
  function ParseMagnitude(neg: bool, t: Text): Option<Num> {
    var i := CountDigits(t);
    if i == 0 || (i > 1 && t[0] == 48) then None
    else
      var fraction := ParseFraction(t[i..]);
      if fraction.None? then None
      else
        var e := ParseExponent(fraction.value.1);
        if e.None? then None
        else Some(Trim(neg, ReadDigits(t[..i]) + fraction.value.0, i + e.value))
  }

  function ParseNumber(t: Text): Option<Num> {
    if t != [] && t[0] == MINUS then ParseMagnitude(true, t[1..]) else ParseMagnitude(false, t)
  }

  predicate IsNumberUnit(u: Unit) {
    IsDigit(u) || u == MINUS || u == PLUS || u == DOT || u == LOWER_E || u == UPPER_E
  }

  // Round trip --------------------------------------------------------------------------

  lemma ReadBack(ds: Digits)
    ensures ReadDigits(DigitsText(ds)) == ds
  {
  }

  lemma {:induction false} CountExact(ds: Digits, rest: Text)
    requires rest == [] || !IsDigit(rest[0])
    ensures CountDigits(DigitsText(ds) + rest) == |ds|
    decreases |ds|
  {
    var t := DigitsText(ds) + rest;
    if ds == [] {
      assert t == rest;
    } else {
      assert t[1..] == DigitsText(ds[1..]) + rest;
      CountExact(ds[1..], rest);
    }
  }

  lemma {:induction false} TrimTail(neg: bool, ds: Digits, z: nat, point: int)
    requires ds != [] && ds[0] != 0 && ds[|ds| - 1] != 0
    ensures Trim(neg, ds + Zeros(z), point) == Num(neg, ds, point)
    decreases z
  {
    var t := ds + Zeros(z);
    if z > 0 {
      assert t[..|t| - 1] == ds + Zeros(z - 1);
      TrimTail(neg, ds, z - 1, point);
    } else {
      assert t == ds;
    }
  }

  lemma {:induction false} TrimHead(neg: bool, ds: Digits, z: nat, point: int)
    requires ds != [] && ds[0] != 0 && ds[|ds| - 1] != 0
    ensures Trim(neg, Zeros(z) + ds, point) == Num(neg, ds, point - z)
    decreases z
  {
    var t := Zeros(z) + ds;
    if z > 0 {
      assert t[1..] == Zeros(z - 1) + ds;
      TrimHead(neg, ds, z - 1, point - 1);
    } else {
      assert t == ds;
    }
  }

  lemma {:induction false} ExponentRoundTrip(e: int)
    ensures ParseExponent(ExponentText(e)) == Some(e)
    ensures !IsDigit(ExponentText(e)[0]) && ExponentText(e)[0] != DOT
  {
    var t, ds := ExponentText(e), Dec(if e < 0 then -e else e);
    assert t[2..] == DigitsText(ds);
    CountExact(ds, []);
    assert DigitsText(ds) + [] == DigitsText(ds);
    ReadBack(ds);
    DecRoundTrip(if e < 0 then -e else e);
  }

  lemma {:induction false} FractionRoundTrip(frac: Digits, tail: Text)
    requires tail == [] || (!IsDigit(tail[0]) && tail[0] != DOT)
    ensures ParseFraction(tail) == Some(([], tail))
    ensures frac != [] ==> ParseFraction([DOT] + (DigitsText(frac) + tail)) == Some((frac, tail))
  {
    var t := [DOT] + (DigitsText(frac) + tail);
    assert t[1..] == DigitsText(frac) + tail;
    CountExact(frac, tail);
    assert t[1..][..|frac|] == DigitsText(frac) && t[1..][|frac|..] == tail;
    ReadBack(frac);
  }

  /** Int digits, a fraction and an exponent part are read back as they were printed. */
  lemma {:induction false} PartsRoundTrip(neg: bool, whole: Digits, frac: Digits, rest: Text, tail: Text, e: int)
    requires whole != [] && (|whole| > 1 ==> whole[0] != 0)
    requires ParseFraction(rest) == Some((frac, tail)) && ParseExponent(tail) == Some(e)
    requires rest == [] || !IsDigit(rest[0])
    ensures ParseMagnitude(neg, DigitsText(whole) + rest) == Some(Trim(neg, whole + frac, |whole| + e))
  {
    hide ParseFraction, ParseExponent, Trim, CountDigits, ReadDigits, Zeros;
    var t := DigitsText(whole) + rest;
    CountExact(whole, rest);
    assert t[..|whole|] == DigitsText(whole) && t[|whole|..] == rest;
    ReadBack(whole);
    assert |whole| > 1 ==> DigitOf(t[0]) == whole[0];
  }

  lemma {:induction false} MagnitudeRoundTrip(neg: bool, ds: Digits, n: int)
    requires ds != [] && ds[0] != 0 && ds[|ds| - 1] != 0
    ensures ParseMagnitude(neg, MagnitudeText(ds, n)) == Some(Num(neg, ds, n))
  {
    if n <= -6 || 21 < n { ScientificRoundTrip(neg, ds, n); } else { PositionalRoundTrip(neg, ds, n); }
  }

  lemma {:induction false} PositionalRoundTrip(neg: bool, ds: Digits, n: int)
    requires ds != [] && ds[0] != 0 && ds[|ds| - 1] != 0 && -6 < n <= 21
    ensures ParseMagnitude(neg, MagnitudeText(ds, n)) == Some(Num(neg, ds, n))
  {
    hide ParseMagnitude, DigitsText, Zeros;
    if |ds| <= n {
      WholeRoundTrip(neg, ds, n);
    } else if 0 < n {
      assert MagnitudeText(ds, n) == DigitsText(ds[..n]) + [DOT] + DigitsText(ds[n..]) + [];
      PointRoundTrip(neg, ds[..n], ds[n..], [], 0, MagnitudeText(ds, n));
      assert ds[..n] + ds[n..] == ds;
    } else {
      SmallRoundTrip(neg, ds, n, MagnitudeText(ds, n));
    }
  }

  lemma {:induction false} SmallRoundTrip(neg: bool, ds: Digits, n: int, t: Text)
    requires ds != [] && ds[0] != 0 && ds[|ds| - 1] != 0 && n <= 0
    requires t == DigitsText([0]) + [DOT] + DigitsText(Zeros(-n) + ds)
    ensures ParseMagnitude(neg, t) == Some(Num(neg, ds, n))
  {
    hide ParseMagnitude, DigitsText, Trim;
    var frac := Zeros(-n) + ds;
    assert t == DigitsText([0]) + [DOT] + DigitsText(frac) + [];
    PointRoundTrip(neg, [0], frac, [], 0, t);
    assert [0] + frac == Zeros(1 - n) + ds;
    TrimHead(neg, ds, 1 - n, 1);
  }

  lemma {:induction false} WholeRoundTrip(neg: bool, ds: Digits, n: int)
    requires ds != [] && ds[0] != 0 && ds[|ds| - 1] != 0 && |ds| <= n
    ensures ParseMagnitude(neg, DigitsText(ds + Zeros(n - |ds|))) == Some(Num(neg, ds, n))
  {
    var whole := ds + Zeros(n - |ds|);
    PartsRoundTrip(neg, whole, [], [], [], 0);
    assert DigitsText(whole) + [] == DigitsText(whole) && whole + [] == whole;
    TrimTail(neg, ds, n - |ds|, n);
  }

  /** The printed form with a point, whatever exponent part follows. */
  lemma {:induction false} PointRoundTrip(neg: bool, whole: Digits, frac: Digits, tail: Text, e: int, t: Text)
    requires whole != [] && (|whole| > 1 ==> whole[0] != 0) && frac != []
    requires tail == [] || (!IsDigit(tail[0]) && tail[0] != DOT)
    requires ParseExponent(tail) == Some(e)
    requires t == DigitsText(whole) + [DOT] + DigitsText(frac) + tail
    ensures ParseMagnitude(neg, t) == Some(Trim(neg, whole + frac, |whole| + e))
  {
    var rest := [DOT] + (DigitsText(frac) + tail);
    assert t == DigitsText(whole) + rest;
    FractionRoundTrip(frac, tail);
    PartsRoundTrip(neg, whole, frac, rest, tail, e);
  }

  lemma {:induction false} ScientificRoundTrip(neg: bool, ds: Digits, n: int)
    requires ds != [] && ds[0] != 0 && ds[|ds| - 1] != 0 && (n <= -6 || 21 < n)
    ensures ParseMagnitude(neg, MagnitudeText(ds, n)) == Some(Num(neg, ds, n))
  {
    hide ParseMagnitude, DigitsText, ExponentText, ParseExponent, ParseFraction, Zeros;
    var tail := ExponentText(n - 1);
    ExponentRoundTrip(n - 1);
    if |ds| == 1 {
      FractionRoundTrip([], tail);
      PartsRoundTrip(neg, ds, [], tail, tail, n - 1);
      assert ds + [] == ds;
    } else {
      PointRoundTrip(neg, ds[..1], ds[1..], tail, n - 1, MagnitudeText(ds, n));
      assert ds[..1] + ds[1..] == ds;
    }
  }

  /** Every format of Number::toString is read back to the number it came from. */
  lemma {:induction false} NumberRoundTrip(n: Num)
    requires Valid(n)
    ensures ParseNumber(NumText(n)) == Some(Fold(n))
  {
    if n.digits == [] {
      PartsRoundTrip(false, [0], [], [], [], 0);
      assert DigitsText([0]) + [] == DigitsText([0]) && [0] + [] == [0];
      assert [0][1..] == [];
    } else {
      MagnitudeRoundTrip(n.neg, n.digits, n.point);
      NumberUnits(n);
      var m := MagnitudeText(n.digits, n.point);
      assert n.neg ==> NumText(n)[1..] == m;
      assert !n.neg ==> NumText(n) == m;
    }
  }

  /** A printed number is not empty, starts with a digit or a minus and has number units only. */
  lemma {:induction false} NumberUnits(n: Num)
    ensures var t := NumText(n);
            && t != [] && (IsDigit(t[0]) || t[0] == MINUS)
            && (forall i :: 0 <= i < |t| ==> IsNumberUnit(t[i]))
    ensures n.digits != [] ==> IsDigit(MagnitudeText(n.digits, n.point)[0])
  {
  }

  /** Which of the formats a number is printed in: an exponent exactly below 1e-6 and from 1e21
      on, a point exactly where digits follow it, and no digit more than that. */
  lemma NumberForms(ds: Digits, n: int)
    requires ds != []
    ensures var t, k := MagnitudeText(ds, n), |ds|;
            && (LOWER_E in t <==> n <= -6 || 21 < n)
            && (-6 < n <= 21 ==> (DOT in t <==> n < k))
            && (0 < n <= 21 ==> |t| == if k <= n then n else k + 1)
            && (-6 < n <= 0 ==> |t| == 2 - n + k)
            && (n <= -6 || 21 < n ==>
                  var m := if k == 1 then 1 else k + 1;
                  && (k > 1 ==> t[1] == DOT) && m + 1 < |t| && t[m] == LOWER_E
                  && t[m + 1] == (if n < 1 then MINUS else PLUS) && (m + 3 < |t| ==> t[m + 2] != 48))
  {
    hide DigitsText, Dec, Zeros, ExponentText;
    var t, k := MagnitudeText(ds, n), |ds|;
    if k <= n <= 21 {
      NoMarks(ds + Zeros(n - k));
    } else if 0 < n <= 21 {
      NoMarks(ds[..n]);
      NoMarks(ds[n..]);
      assert t[n] == DOT;
    } else if -6 < n <= 0 {
      NoMarks([0]);
      NoMarks(Zeros(-n) + ds);
      assert t[1] == DOT;
    } else {
      ExponentForm(n - 1);
      NoMarks(ds[..1]);
      NoMarks(ds[1..]);
      NoMarks(ds);
      var m := if k == 1 then 1 else k + 1;
      assert t[m..] == ExponentText(n - 1) && t[m] == t[m..][0];
      assert t[m + 1] == t[m..][1] && (m + 2 < |t| ==> t[m + 2] == t[m..][2]);
    }
  }

  lemma NoMarks(ds: Digits)
    ensures LOWER_E !in DigitsText(ds) && DOT !in DigitsText(ds)
  {
  }

  lemma ExponentForm(e: int)
    ensures var t := ExponentText(e);
            && |t| >= 3 && t[0] == LOWER_E && t[1] == (if e < 0 then MINUS else PLUS) && (|t| > 3 ==> t[2] != 48)
  {
    var m := if e < 0 then -e else e;
    DecLead(m);
    var ds := DigitsText(Dec(m));
    assert ExponentText(e)[2..] == ds && ExponentText(e)[2] == ds[0];
  }

  lemma DecLead(m: nat)
    ensures Dec(m) != [] && (|Dec(m)| > 1 ==> Dec(m)[0] != 0)
  {
  }

  // Integers ----------------------------------------------------------------------------

  function FromInt(z: int): (n: Num)
    ensures Valid(n)
  {
    if z == 0 then ZERO else Trim(z < 0, Dec(if z < 0 then -z else z), |Dec(if z < 0 then -z else z)|)
  }

  function ToInt(n: Num): int {
    var m: int := if |n.digits| <= n.point then DecValue(n.digits + Zeros(n.point - |n.digits|)) else 0;
    if n.neg then -m else m
  }

  lemma {:induction false} TrimKeepsValue(neg: bool, ds: Digits, z: nat)
    requires ds != [] && ds[0] != 0
    ensures var n := Trim(neg, ds, |ds| + z);
            n.neg == neg && |n.digits| <= n.point && n.digits + Zeros(n.point - |n.digits|) == ds + Zeros(z)
    decreases |ds|
  {
    if ds[|ds| - 1] == 0 {
      var front := ds[..|ds| - 1];
      assert front != [];
      TrimKeepsValue(neg, front, z + 1);
      assert front + Zeros(z + 1) == ds + Zeros(z);
    }
  }

  lemma {:induction false} IntRoundTrip(z: int)
    ensures ToInt(FromInt(z)) == z && |FromInt(z).digits| <= FromInt(z).point
  {
    hide Dec, Trim;
    var m := if z < 0 then -z else z;
    if z != 0 {
      TrimKeepsValue(z < 0, Dec(m), 0);
      assert Dec(m) + Zeros(0) == Dec(m);
      DecRoundTrip(m);
    }
  }

  // The number itself --------------------------------------------------------------------

  function Pow10(e: int): real
    decreases if e < 0 then -e else e
  {
    if e == 0 then 1.0 else if e > 0 then 10.0 * Pow10(e - 1) else Pow10(e + 1) / 10.0
  }

  function RealOf(n: Num): real {
    var m := DecValue(n.digits) as real * Pow10(n.point - |n.digits|);
    if n.neg then -m else m
  }

  lemma {:induction false} ZerosScale(ds: Digits, z: nat)
    ensures DecValue(ds + Zeros(z)) as real == DecValue(ds) as real * Pow10(z)
    decreases z
  {
    if z == 0 {
      assert ds + Zeros(0) == ds;
    } else {
      var t := ds + Zeros(z);
      assert t[..|t| - 1] == ds + Zeros(z - 1) && t[|t| - 1] == 0;
      ZerosScale(ds, z - 1);
    }
  }

  /** An integer is read as itself. */
  lemma IntReal(n: Num)
    requires |n.digits| <= n.point
    ensures RealOf(n) == ToInt(n) as real
  {
    hide DecValue, Pow10, Zeros;
    ZerosScale(n.digits, n.point - |n.digits|);
  }
}
