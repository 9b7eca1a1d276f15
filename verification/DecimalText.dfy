/**
  Fixed-point printing of decimal values from their raw integers: the 32- and 64-bit printer and
  the 128-bit one with its own digit loop, against one arithmetic description of the text.
 */
module DecimalText {
  import opened DecimalDigits

  // ---------------------------------------------------------------------- the text

  function Abs(x: int): nat { if x < 0 then -x else x }

  function Sign(x: int): string { if x < 0 then "-" else "" }

  /** Sign, integer part, and exactly `scale` fraction digits. */
  function FixedPoint(raw: int, scale: nat): string {
    if scale == 0 then Sign(raw) + Digits(Abs(raw))
    else Sign(raw) + Digits(Whole(Abs(raw), scale)) + "." + LowDigits(Abs(raw), scale)
  }

  // ----------------------------------------------------------------- reading it back

  function IndexOfPoint(t: string): (i: nat)
    ensures i <= |t| && (i < |t| ==> t[i] == '.') && forall k :: 0 <= k < i ==> t[k] != '.'
  {
    if t == [] || t[0] == '.' then 0 else 1 + IndexOfPoint(t[1..])
  }

  datatype Reading = NotANumber | Reading(raw: int, scale: nat)

  /** The value and scale of the text behind the sign. */
  function ReadBody(negative: bool, body: string): Reading {
    var i := IndexOfPoint(body);
    var whole, fraction := body[..i], if i < |body| then body[i + 1..] else [];
    if whole == [] || !AllDigits(whole + fraction) then NotANumber
    else
      var m: int := Read(whole + fraction);
      Reading(if negative then -m else m, |fraction|)
  }

  /** The raw value and the scale a fixed-point text stands for. */
  function ReadFixedPoint(t: string): Reading {
    if t != [] && t[0] == '-' then ReadBody(true, t[1..]) else ReadBody(false, t)
  }

  lemma {:induction false} FirstPoint(whole: string, rest: string)
    requires AllDigits(whole) && (rest == [] || rest[0] == '.')
    ensures IndexOfPoint(whole + rest) == |whole|
    decreases |whole|
  {
    if whole != [] {
      assert (whole + rest)[1..] == whole[1..] + rest;
      FirstPoint(whole[1..], rest);
    }
  }

  function Body(whole: string, fraction: string): string {
    whole + if fraction == [] then "" else "." + fraction
  }

  function Spelled(negative: bool, whole: string, fraction: string): string {
    (if negative then "-" else "") + Body(whole, fraction)
  }

  lemma BodyReads(negative: bool, whole: string, fraction: string)
    requires AllDigits(whole) && AllDigits(fraction) && whole != []
    ensures var m: int := Read(whole + fraction);
      ReadBody(negative, Body(whole, fraction)) == Reading(if negative then -m else m, |fraction|)
  {
    assert AllDigits(whole + fraction);
    BodySplits(whole, fraction);
    hide Read, IndexOfPoint, Body, AllDigits;
    if fraction == [] { assert whole + fraction == whole; }
  }

  lemma BodySplits(whole: string, fraction: string)
    requires AllDigits(whole)
    ensures var body, n := Body(whole, fraction), |whole|;
      && IndexOfPoint(body) == n <= |body| && body[..n] == whole
      && (n < |body| <==> fraction != []) && (n < |body| ==> body[n + 1..] == fraction)
  {
    hide IndexOfPoint, AllDigits;
    FirstPoint(whole, if fraction == [] then "" else "." + fraction);
  }

  lemma SignReads(negative: bool, body: string)
    requires body != [] && body[0] != '-'
    ensures ReadFixedPoint((if negative then "-" else "") + body) == ReadBody(negative, body)
  {
    hide ReadBody;
    if negative { assert ("-" + body)[1..] == body; } else { assert "" + body == body; }
  }

  lemma SpelledReads(negative: bool, whole: string, fraction: string)
    requires AllDigits(whole) && AllDigits(fraction) && whole != []
    ensures var m: int := Read(whole + fraction);
      ReadFixedPoint(Spelled(negative, whole, fraction)) == Reading(if negative then -m else m, |fraction|)
  {
    hide Read, ReadBody, ReadFixedPoint;
    BodyReads(negative, whole, fraction);
    assert Body(whole, fraction)[0] == whole[0] && IsDigit(whole[0]);
    SignReads(negative, Body(whole, fraction));
  }

  lemma FixedPointSpelled(raw: int, scale: nat)
    ensures FixedPoint(raw, scale) ==
      Spelled(raw < 0, Digits(Whole(Abs(raw), scale)), LowDigits(Abs(raw), scale))
  {
    var whole, low := Digits(Whole(Abs(raw), scale)), LowDigits(Abs(raw), scale);
    assert scale == 0 ==> Whole(Abs(raw), scale) == Abs(raw);
    hide Digits, LowDigits, Whole;
    if scale == 0 {
      assert whole + "" == whole;
    } else {
      assert Sign(raw) + whole + "." + low == Sign(raw) + (whole + ("." + low));
    }
  }

  /** The text reads back to the raw value and the scale, the type minimum included. */
  lemma FixedPointRoundTrip(raw: int, scale: nat)
    ensures ReadFixedPoint(FixedPoint(raw, scale)) == Reading(raw, scale)
  {
    hide Digits, LowDigits, Read, Whole, ReadFixedPoint;
    var whole, fraction := Digits(Whole(Abs(raw), scale)), LowDigits(Abs(raw), scale);
    FixedPointSpelled(raw, scale);
    SpelledReads(raw < 0, whole, fraction);
    ReadParts(Abs(raw), scale);
  }

  /** Exactly `scale` fraction digits, one integer digit at least, and no zero in front of another digit. */
  lemma FixedPointShape(raw: int, scale: nat) returns (whole: string, fraction: string)
    ensures FixedPoint(raw, scale) == Sign(raw) + whole + if scale == 0 then "" else "." + fraction
    ensures AllDigits(whole) && AllDigits(fraction) && |fraction| == scale && |whole| >= 1 && IsDigit(whole[0])
    ensures |whole| > 1 ==> whole[0] != '0'
    ensures whole == Digits(Whole(Abs(raw), scale)) && fraction == LowDigits(Abs(raw), scale)
  {
    var n := Whole(Abs(raw), scale);
    whole, fraction := Digits(n), LowDigits(Abs(raw), scale);
    ReadDigits(n);
    assert n < 10 ==> |whole| == 1;
    if scale > 0 { assert Sign(raw) + whole + "." + fraction == Sign(raw) + whole + ("." + fraction); }
  }

  /** A fixed-point text in normal form: no sign on zero, no superfluous zero, a point only before digits. */
  predicate Normal(negative: bool, whole: string, fraction: string) {
    && AllDigits(whole) && AllDigits(fraction) && whole != [] && (|whole| > 1 ==> whole[0] != '0')
    && (negative ==> Read(whole + fraction) != 0)
  }

  /** The printed text is the only one in normal form that reads back to the value and scale. */
  lemma FixedPointIsUnique(negative: bool, whole: string, fraction: string, raw: int, scale: nat)
    requires Normal(negative, whole, fraction)
    requires ReadFixedPoint(Spelled(negative, whole, fraction)) == Reading(raw, scale)
    ensures Spelled(negative, whole, fraction) == FixedPoint(raw, scale)
  {
    SpelledReads(negative, whole, fraction);
    PartsAreUnique(whole, fraction);
    hide ReadFixedPoint, Digits, LowDigits, Whole, Read, Spelled, FixedPoint, AllDigits;
    FixedPointSpelled(raw, scale);
    assert Abs(raw) == Read(whole + fraction) && scale == |fraction| && negative == (raw < 0);
  }

  // -------------------------------------------------------------------- the printers

  /** The machine integers the printers take. */
  datatype Width = W32 | W64 | W128

  function Half(w: Width): nat {
    match w
    case W32 => 0x8000_0000
    case W64 => 0x8000_0000_0000_0000
    case W128 => 0x8000_0000_0000_0000_0000_0000_0000_0000
  }

  predicate Fits(raw: int, w: Width) { raw + Half(w) >= 0 && raw < Half(w) }

  /** Conversion to the unsigned type: modulo two to the width. */
  function Unsigned(raw: int, w: Width): nat
    requires Fits(raw, w)
  {
    if raw < 0 then raw + 2 * Half(w) else raw
  }

  /** Zero minus `u`, wrapping. */
  function Negated(u: nat, w: Width): nat
    requires u < 2 * Half(w)
  {
    if u == 0 then 0 else 2 * Half(w) - u
  }

  function Magnitude(raw: int, w: Width): (m: nat)
    requires Fits(raw, w)
    ensures m == Abs(raw)
  {
    if raw < 0 then Negated(Unsigned(raw, w), w) else Unsigned(raw, w)
  }

  /** Zeros in front until there is one digit more than the scale, then the point. */
  method PlacePoint(digits: string, scale: nat) returns (text: string)
    requires scale > 0
    ensures var padded := Pad(digits, scale + 1);
      text == padded[..|padded| - scale] + "." + padded[|padded| - scale..]
  {
    var padded := digits;
    while |padded| <= scale
      invariant |digits| <= |padded| && padded == Zeros(|padded| - |digits|) + digits
      invariant |padded| <= scale + 1 || padded == digits
    {
      assert ['0'] + Zeros(|padded| - |digits|) == Zeros(|padded| + 1 - |digits|);
      padded := ['0'] + padded;
    }
    var at := |padded| - scale;
    text := padded[..at] + "." + padded[at..];
  }

  lemma PointPlaced(raw: int, scale: nat)
    requires scale > 0
    ensures var padded := Pad(Digits(Abs(raw)), scale + 1);
      FixedPoint(raw, scale) == Sign(raw) + (padded[..|padded| - scale] + "." + padded[|padded| - scale..])
  {
    hide Digits, LowDigits, Whole;
    PaddedSplits(Abs(raw), scale);
    var padded := Pad(Digits(Abs(raw)), scale + 1);
    var whole, low := Digits(Whole(Abs(raw), scale)), LowDigits(Abs(raw), scale);
    assert padded == whole + low;
    assert padded[..|padded| - scale] == whole && padded[|padded| - scale..] == low;
    assert Sign(raw) + whole + "." + low == Sign(raw) + (whole + "." + low);
  }

  method FormatDecimal(raw: int, w: Width, scale: nat) returns (text: string)
    requires Fits(raw, w)
    ensures text == FixedPoint(raw, scale)
  {
    hide Digits, LowDigits, Whole, Pad;
    if scale == 0 { return Sign(raw) + Digits(Abs(raw)); }
    var negative := raw < 0;
    var magnitude := Magnitude(raw, w);
    text := PlacePoint(Digits(magnitude), scale);
    PointPlaced(raw, scale);
    return (if negative then "-" else "") + text;
  }

  function Reversed(s: string): string {
    if s == [] then [] else [s[|s| - 1]] + Reversed(s[..|s| - 1])
  }

  /** The digit loop of the 128-bit printer. */
  method PrintDigits(n: nat) returns (digits: string)
    ensures digits == Digits(n)
  {
    if n == 0 { return "0"; }
    var m := n;
    digits := "";
    while m > 0
      invariant if m > 0 then Digits(m) + Reversed(digits) == Digits(n) else Reversed(digits) == Digits(n)
    {
      var longer := digits + [DigitChar(m % 10)];
      assert longer[..|longer| - 1] == digits;
      assert Reversed(longer) == [DigitChar(m % 10)] + Reversed(digits);
      if m >= 10 {
        assert Digits(m) + Reversed(digits) == Digits(m / 10) + Reversed(longer);
      }
      digits := longer;
      m := m / 10;
    }
    digits := Reversed(digits);
  }

  method FormatDecimal128(raw: int, scale: nat) returns (text: string)
    requires Fits(raw, W128)
    ensures text == FixedPoint(raw, scale)
  {
    hide Digits, LowDigits, Whole, Pad, Magnitude;
    var negative := raw < 0;
    var magnitude := Magnitude(raw, W128);
    var digits := PrintDigits(magnitude);
    if scale == 0 { return (if negative then "-" else "") + digits; }
    text := PlacePoint(digits, scale);
    PointPlaced(raw, scale);
    return (if negative then "-" else "") + text;
  }
}
