/** Text form of .NET `decimal` values. A decimal is a signed integer
    mantissa with a power-of-ten scale, and ToString keeps every digit of
    the scale (0.150M prints as "0.150"). The only culture-dependent part
    is the decimal separator (and the negative sign). */
module DecimalText {
  import opened Common

  datatype Decimal = Decimal(mantissa: int, scale: nat)

  datatype Culture = Culture(decimalSeparator: string, negativeSign: string)

  /** The fixed en-US culture: "." separates the fraction. */
  const EnUs: Culture := Culture(".", "-")

  /** `x` with `n` decimal zeros appended: x * 10^n. */
  function Shift(x: nat, n: nat): nat
  {
    if n == 0 then x else 10 * Shift(x, n - 1)
  }

  /** The decimal with its trailing fractional zeros dropped: the same
      number at the smallest scale that holds it. */
  function Reduced(d: Decimal): (r: Decimal)
    ensures r.scale <= d.scale
    ensures r.scale == 0 || r.mantissa % 10 != 0
    decreases d.scale
  {
    if d.scale > 0 && d.mantissa % 10 == 0 then Reduced(Decimal(d.mantissa / 10, d.scale - 1)) else d
  }

  /** Decimal equality: the same number whatever the scales, so 0.150M and
      0.15M are equal although they print differently. Two decimals are the
      same number exactly when they reduce to the same decimal. */
  predicate SameValue(a: Decimal, b: Decimal) {
    Reduced(a) == Reduced(b)
  }

  /** Equal values need not be the same decimal: the scale is kept. */
  lemma ScaleIsNotValue()
    ensures SameValue(Decimal(150, 3), Decimal(15, 2))
    ensures Decimal(150, 3) != Decimal(15, 2)
    ensures !SameValue(Decimal(150, 3), Decimal(16, 2))
  {
    assert Reduced(Decimal(15, 2)) == Decimal(15, 2);
    assert Reduced(Decimal(150, 3)) == Reduced(Decimal(15, 2));
  }

  function Zeros(n: nat): (z: string)
    ensures |z| == n && AllDigits(z)
    ensures forall i :: 0 <= i < n ==> z[i] == '0'
  {
    seq(n, i => '0')
  }

  function Magnitude(d: Decimal): nat {
    if d.mantissa < 0 then -d.mantissa else d.mantissa
  }

  /** The digits of |mantissa|, left-padded with zeros so that at least one
      digit stands before the separator. */
  function PaddedDigits(d: Decimal): (s: string)
    ensures AllDigits(s) && |s| > d.scale
  {
    var digits := NatToString(Magnitude(d));
    if |digits| <= d.scale then Zeros(d.scale + 1 - |digits|) + digits else digits
  }

  /** decimal.ToString(culture). */
  function Render(d: Decimal, c: Culture): string {
    var p := PaddedDigits(d);
    var intPart := p[..|p| - d.scale];
    var body := if d.scale == 0 then intPart else intPart + c.decimalSeparator + p[|p| - d.scale..];
    if d.mantissa < 0 then c.negativeSign + body else body
  }

  function IndexOfChar(s: string, c: char): (r: int)
    ensures -1 <= r < |s|
    ensures r >= 0 ==> s[r] == c
    ensures forall i :: 0 <= i < (if r < 0 then |s| else r) ==> s[i] != c
    decreases |s|
  {
    if |s| == 0 then -1
    else if s[0] == c then 0
    else var r := IndexOfChar(s[1..], c); if r < 0 then -1 else r + 1
  }

  /** Invariant-culture parsing of the rendered form: an optional "-", digits,
      and optionally "." followed by the fraction digits, whose count is the scale. */
  function ParseInvariant(s: string): Option<Decimal>
  {
    if |s| > 0 && s[0] == '-' then
      match ParseMagnitude(s[1..])
      case None => None
      case Some(m) => Some(Decimal(-m.mantissa, m.scale))
    else ParseMagnitude(s)
  }

  /** The unsigned part: digits, then optionally "." and at least one
      fraction digit. */
  function ParseMagnitude(body: string): Option<Decimal>
  {
    var k := IndexOfChar(body, '.');
    if k < 0 then ParseParts(body, "", false) else ParseParts(body[..k], body[k + 1..], true)
  }

  /** The number of an integer part and a fraction part, split at the dot
      when there is one. */
  function ParseParts(intPart: string, frac: string, dot: bool): Option<Decimal>
  {
    if intPart == [] || !AllDigits(intPart) || !AllDigits(frac) || (dot && frac == []) then None
    else Some(Decimal(Shift(DigitsValue(intPart), |frac|) + DigitsValue(frac), |frac|))
  }

  /** A fractional value is read only from text that has a '.'. */
  lemma FractionNeedsDot(s: string)
    requires ParseInvariant(s).Some? && ParseInvariant(s).value.scale > 0
    ensures '.' in s
  {
    var neg := |s| > 0 && s[0] == '-';
    var body := if neg then s[1..] else s;
    var k := IndexOfChar(body, '.');
    assert k >= 0;
    assert s[k + (if neg then 1 else 0)] == '.';
  }

  lemma {:induction false} DigitsValueAppend(a: string, b: string)
    requires AllDigits(a) && AllDigits(b)
    ensures AllDigits(a + b)
    ensures DigitsValue(a + b) == Shift(DigitsValue(a), |b|) + DigitsValue(b)
    decreases |b|
  {
    var ab := a + b;
    if b == [] {
      assert ab == a;
    } else {
      var front := b[..|b| - 1];
      assert ab[..|ab| - 1] == a + front;
      assert ab[|ab| - 1] == b[|b| - 1];
      DigitsValueAppend(a, front);
      assert DigitsValue(ab) == DigitsValue(a + front) * 10 + DigitValue(b[|b| - 1]);
      assert DigitsValue(b) == DigitsValue(front) * 10 + DigitValue(b[|b| - 1]);
    }
  }

  lemma {:induction false} ShiftZero(n: nat)
    ensures Shift(0, n) == 0
  {
    if n > 0 {
      ShiftZero(n - 1);
    }
  }

  lemma {:induction false} ZerosValue(n: nat)
    ensures DigitsValue(Zeros(n)) == 0
    decreases n
  {
    if n > 0 {
      assert Zeros(n)[..n - 1] == Zeros(n - 1);
      ZerosValue(n - 1);
    }
  }

  lemma PaddedValue(d: Decimal)
    ensures DigitsValue(PaddedDigits(d)) == Magnitude(d)
  {
    var digits := NatToString(Magnitude(d));
    NatToStringRoundTrip(Magnitude(d));
    if |digits| <= d.scale {
      var z := Zeros(d.scale + 1 - |digits|);
      assert PaddedDigits(d) == z + digits;
      DigitsValueAppend(z, digits);
      ZerosValue(d.scale + 1 - |digits|);
      ShiftZero(|digits|);
    } else {
      assert PaddedDigits(d) == digits;
    }
  }

  /** Rendering in the fixed culture never produces a comma, whatever the value. */
  lemma InvariantRenderHasNoComma(d: Decimal)
    ensures ',' !in Render(d, EnUs)
  {
    var p := PaddedDigits(d);
    assert forall i :: 0 <= i < |p| ==> p[i] != ',';
  }

  /** The unsigned part of the en-US text: the padded digits with "." before
      the last `scale` of them. */
  function InvariantBody(d: Decimal): string {
    var p := PaddedDigits(d);
    if d.scale == 0 then p else p[..|p| - d.scale] + "." + p[|p| - d.scale..]
  }

  lemma RenderSplit(d: Decimal)
    ensures Render(d, EnUs) == if d.mantissa < 0 then "-" + InvariantBody(d) else InvariantBody(d)
  {
    var p := PaddedDigits(d);
    if d.scale == 0 {
      assert p[..|p| - d.scale] == p;
    }
  }

  /** Where the "." lands in the body and what stands on either side. */
  lemma BodyShape(d: Decimal)
    ensures |InvariantBody(d)| > 0 && InvariantBody(d)[0] != '-'
    ensures d.scale == 0 ==> IndexOfChar(InvariantBody(d), '.') < 0 && InvariantBody(d) == PaddedDigits(d)
    ensures d.scale > 0 ==>
      var p := PaddedDigits(d);
      var k := IndexOfChar(InvariantBody(d), '.');
      k == |p| - d.scale && InvariantBody(d)[..k] == p[..k] && InvariantBody(d)[k + 1..] == p[k..]
  {
    var p := PaddedDigits(d);
    var b := InvariantBody(d);
    assert IsDigit(p[0]);
    if d.scale > 0 {
      var n := |p| - d.scale;
      assert b[n] == '.';
      forall i | 0 <= i < n ensures b[i] != '.' {
        assert b[i] == p[i];
        assert IsDigit(p[i]);
      }
    } else {
      forall i | 0 <= i < |b| ensures b[i] != '.' {
        assert IsDigit(p[i]);
      }
    }
  }

  /** The parser's view of unsigned text made of an integer part, a dot
      and a fraction part. */
  lemma ParseUnsigned(b: string, k: int, intPart: string, frac: string)
    requires intPart != [] && AllDigits(intPart) && AllDigits(frac)
    requires k < 0 ==> b == intPart && frac == []
    requires k >= 0 ==> k < |b| && b[..k] == intPart && b[k + 1..] == frac && frac != []
    requires IndexOfChar(b, '.') == k
    ensures ParseMagnitude(b) == Some(Decimal(Shift(DigitsValue(intPart), |frac|) + DigitsValue(frac), |frac|))
  {
    assert ParseMagnitude(b) == ParseParts(intPart, frac, k >= 0);
  }

  /** The padded digits split before the last `scale` of them: a non-empty
      integer part and a fraction part that together give the magnitude. */
  lemma PaddedSplit(d: Decimal)
    ensures var p := PaddedDigits(d);
      var intPart, frac := p[..|p| - d.scale], p[|p| - d.scale..];
      && intPart != [] && AllDigits(intPart) && AllDigits(frac) && |frac| == d.scale
      && Shift(DigitsValue(intPart), |frac|) + DigitsValue(frac) == Magnitude(d)
  {
    var p := PaddedDigits(d);
    var n := |p| - d.scale;
    var intPart, frac := p[..n], p[n..];
    PaddedValue(d);
    assert p == intPart + frac;
    DigitsValueAppend(intPart, frac);
  }

  lemma ParseBody(d: Decimal)
    ensures ParseMagnitude(InvariantBody(d)) == Some(Decimal(Magnitude(d), d.scale))
  {
    var p := PaddedDigits(d);
    var n := |p| - d.scale;
    BodyShape(d);
    PaddedSplit(d);
    var k := if d.scale == 0 then -1 else n;
    ParseUnsigned(InvariantBody(d), k, p[..n], p[n..]);
  }

  /** Parsing the en-US text gives back the decimal: the rendering loses
      neither the digits nor the scale. */
  lemma RenderRoundTrip(d: Decimal)
    ensures ParseInvariant(Render(d, EnUs)) == Some(d)
  {
    var b := InvariantBody(d);
    RenderSplit(d);
    BodyShape(d);
    ParseBody(d);
    ParseSign(b);
  }

  /** Text without a leading "-" parses as its magnitude; with one, as the
      negated magnitude. */
  lemma ParseSign(b: string)
    requires |b| > 0 && b[0] != '-'
    ensures ParseInvariant(b) == ParseMagnitude(b)
    ensures ParseInvariant("-" + b) == if ParseMagnitude(b).None? then None
      else Some(Decimal(-ParseMagnitude(b).value.mantissa, ParseMagnitude(b).value.scale))
  {
    assert ("-" + b)[1..] == b;
  }

  /** int.ToString(culture): the culture's negative sign before the digits. */
  function RenderInt(i: int, c: Culture): (s: string)
    ensures c == EnUs ==> s == IntToString(i)
  {
    if i < 0 then c.negativeSign + NatToString(-i) else NatToString(i)
  }

  /** An integer prints exactly as the decimal of scale 0 with the same
      value, so the decimal round trip covers integers too. */
  lemma RenderIntIsDecimal(i: int, c: Culture)
    ensures RenderInt(i, c) == Render(Decimal(i, 0), c)
    ensures ParseInvariant(RenderInt(i, EnUs)) == Some(Decimal(i, 0))
  {
    var d := Decimal(i, 0);
    var p := PaddedDigits(d);
    assert p == NatToString(Magnitude(d));
    assert p[..|p| - 0] == p;
    RenderRoundTrip(d);
  }

  /** Under any culture that keeps "-" as the negative sign, the text differs
      from the en-US text only in the separator: it is the en-US text with
      its single "." replaced. */
  lemma CultureOnlyMovesSeparator(d: Decimal, sep: string)
    ensures Render(d, Culture(sep, "-")) == ReplaceAll(Render(d, EnUs), ".", sep)
  {
    var p := PaddedDigits(d);
    var n := |p| - d.scale;
    var sign := if d.mantissa < 0 then "-" else "";
    assert forall i :: 0 <= i < |p| ==> p[i] != '.';
    if d.scale == 0 {
      assert p[..n] == p;
      assert Render(d, EnUs) == sign + p;
      assert '.' !in sign + p;
      ReplaceAllNoLead(sign + p, ".", sep);
    } else {
      var pre := sign + p[..n];
      var post := p[n..];
      assert Render(d, EnUs) == pre + "." + post;
      assert Render(d, Culture(sep, "-")) == pre + sep + post;
      assert '.' !in pre && '.' !in post;
      ReplaceAllSingle(pre, ".", post, sep);
    }
  }
}
