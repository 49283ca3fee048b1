/** The numeric conversions of the backend: Python's `int(text)`, and
    `decimal.Decimal(text)` with `str()` of a `Decimal`, for finite values.
    A `Decimal` is kept as Python keeps it: a sign, an integer coefficient and
    a power-of-ten exponent, so that `Decimal('1.230')` and `Decimal('1.23')`
    are different values with different text.
 */
module Numbers {
  import opened Options
  import opened Text

  // ---------------------------------------------------------------------
  // int(text)
  // ---------------------------------------------------------------------

  /** Decimal digits with single underscores between them, as `int()` accepts. */
  predicate UnderscoredDigits(s: string) {
    s != [] && IsDigit(s[0]) && IsDigit(s[|s| - 1])
    && (forall i :: 0 <= i < |s| ==> IsDigit(s[i]) || s[i] == '_')
    && NoDoubleUnderscore(s)
  }

  predicate NoDoubleUnderscore(s: string) {
    |s| < 2 || (!(s[0] == '_' && s[1] == '_') && NoDoubleUnderscore(s[1..]))
  }

  lemma {:induction false} RemoveUnderscores(s: string)
    requires forall i :: 0 <= i < |s| ==> IsDigit(s[i]) || s[i] == '_'
    ensures AllDigits(RemoveChar(s, '_'))
  {
    if s != [] {
      RemoveUnderscores(s[1..]);
    }
  }

  lemma StripUnspaced(s: string)
    requires s != [] && !IsSpace(s[0]) && !IsSpace(s[|s| - 1])
    ensures Strip(s) == s
  {
  }

  /** `int(text)`: surrounding whitespace, an optional sign and underscored digits. */
  function ParseInt(s: string): Result<int>
  {
    ParseSignedInt(Strip(s))
  }

  /** `int()` after whitespace has been stripped. */
  function ParseSignedInt(t: string): Result<int>
  {
    if t != [] && (t[0] == '-' || t[0] == '+') then
      match ParseUnsignedInt(t[1..])
      case Err(e) => Err(e)
      case Ok(v) => Ok(if t[0] == '-' then -(v as int) else v)
    else ParseUnsignedInt(t)
  }

  /** The digits of an `int()` literal, underscores allowed between them. */
  function ParseUnsignedInt(body: string): Result<nat>
  {
    if UnderscoredDigits(body) then
      RemoveUnderscores(body);
      Ok(DigitsValue(RemoveChar(body, '_')))
    else Err(ValueError)
  }

  /** A plain digit string is accepted by `int()` as it is. */
  lemma DigitsUnderscored(s: string)
    requires s != [] && AllDigits(s)
    ensures UnderscoredDigits(s)
    ensures RemoveChar(s, '_') == s
    ensures ParseUnsignedInt(s) == Ok(DigitsValue(s))
  {
    assert '_' !in s by {
      forall i | 0 <= i < |s| ensures s[i] != '_' {
        assert IsDigit(s[i]);
      }
    }
    RemoveAbsentChar(s, '_');
    NoUnderscoreNoDouble(s);
  }

  lemma ParseIntOfDigits(s: string)
    requires s != [] && AllDigits(s)
    ensures ParseInt(s) == Ok(DigitsValue(s))
  {
    assert !IsSpace(s[0]) && !IsSpace(s[|s| - 1]) by {
      assert IsDigit(s[0]) && IsDigit(s[|s| - 1]);
    }
    StripUnspaced(s);
    DigitsUnderscored(s);
  }

  /** `int(str(n)) == n`. */
  lemma ParseIntOfNat(n: nat)
    ensures ParseInt(NatToString(n)) == Ok(n)
  {
    ParseIntOfDigits(NatToString(n));
    NatToStringValue(n);
  }

  lemma {:induction false} NoUnderscoreNoDouble(s: string)
    requires '_' !in s
    ensures NoDoubleUnderscore(s)
  {
    if |s| >= 2 {
      NoUnderscoreNoDouble(s[1..]);
    }
  }

  /** Text that is empty or only whitespace is not a number. */
  lemma ParseIntBlank(s: string)
    requires forall i :: 0 <= i < |s| ==> IsSpace(s[i])
    ensures ParseInt(s) == Err(ValueError)
  {
    StripBlank(s);
  }

  // ---------------------------------------------------------------------
  // decimal.Decimal
  // ---------------------------------------------------------------------

  /** A finite `Decimal`: (-1)^negative * coefficient * 10^exponent. */
  datatype Decimal = Decimal(negative: bool, coefficient: nat, exponent: int)

  /** Python truthiness of a `Decimal`: every zero, whatever its sign or exponent, is false. */
  predicate DecimalTruthy(d: Decimal) {
    d.coefficient != 0
  }

  /** An unsigned coefficient and exponent. */
  datatype Unsigned = Unsigned(coefficient: nat, exponent: int)

  /** Index of the first c in s, or |s| when there is none. */
  function Find(s: string, c: char): (i: nat)
    ensures i <= |s| && c !in s[..i]
    ensures i < |s| ==> s[i] == c
  {
    if s == [] || s[0] == c then 0
    else
      var i := 1 + Find(s[1..], c);
      assert s[..i] == [s[0]] + s[1..][..i - 1];
      i
  }

  predicate IsExponentMark(c: char) {
    c == 'e' || c == 'E'
  }

  /** Index of the first exponent mark in s, or |s|. */
  function FindExponentMark(s: string): (i: nat)
    ensures i <= |s|
    ensures forall j :: 0 <= j < i ==> !IsExponentMark(s[j])
    ensures i < |s| ==> IsExponentMark(s[i])
  {
    if s == [] || IsExponentMark(s[0]) then 0 else 1 + FindExponentMark(s[1..])
  }

  /** Digits with at most one point and at least one digit; the exponent counts the digits after the point. */
  function ParseMantissa(m: string): Option<Unsigned>
  {
    var p := Find(m, '.');
    var intDigits := m[..p];
    var fracDigits := if p == |m| then "" else m[p + 1..];
    if AllDigits(intDigits) && AllDigits(fracDigits) && |intDigits| + |fracDigits| > 0 then
      assert AllDigits(intDigits + fracDigits);
      Some(Unsigned(DigitsValue(intDigits + fracDigits), -|fracDigits|))
    else None
  }

  /** An exponent: an optional sign and at least one digit. */
  function ParseExponent(x: string): Option<int>
  {
    var negative := x != [] && x[0] == '-';
    var digits := if x != [] && (x[0] == '-' || x[0] == '+') then x[1..] else x;
    if digits != [] && AllDigits(digits) then
      var v: int := DigitsValue(digits);
      Some(if negative then 0 - v else v)
    else None
  }

  function ParseUnsigned(body: string): Option<Unsigned>
  {
    var k := FindExponentMark(body);
    var m := ParseMantissa(body[..k]);
    var e := if k == |body| then Some(0) else ParseExponent(body[k + 1..]);
    if m.Some? && e.Some? then Some(Unsigned(m.value.coefficient, m.value.exponent + e.value)) else None
  }

  /** `decimal.Decimal(text)` for finite numbers written with ASCII digits. */
  function ParseDecimal(s: string): Result<Decimal>
  {
    ParseSignedDecimal(Strip(s))
  }

  /** `decimal.Decimal()` after whitespace has been stripped. */
  function ParseSignedDecimal(t: string): (r: Result<Decimal>)
    ensures r.Err? ==> r.error == InvalidOperation
    ensures r.Ok? && r.value.negative ==> t != [] && t[0] == '-'
  {
    var negative := t != [] && t[0] == '-';
    var body := if t != [] && (t[0] == '-' || t[0] == '+') then t[1..] else t;
    match ParseUnsigned(body)
    case None => Err(InvalidOperation)
    case Some(u) => Ok(Decimal(negative, u.coefficient, u.exponent))
  }

  /** `'%+d' % v`. */
  function SignedToString(v: int): (s: string)
    ensures |s| >= 2 && (s[0] == '+' || s[0] == '-')
  {
    if v >= 0 then "+" + NatToString(v) else "-" + NatToString(-v)
  }

  /** The position of the decimal point in Python's rendering of a coefficient and exponent. */
  function DotPlace(digitCount: nat, exponent: int): int
  {
    var leftDigits := exponent + digitCount;
    if exponent <= 0 && leftDigits > -6 then leftDigits else 1
  }

  /** The digits and the decimal point of the rendering. */
  function MantissaText(u: Unsigned): string
  {
    var digits := NatToString(u.coefficient);
    var dot := DotPlace(|digits|, u.exponent);
    if dot <= 0 then "0" + "." + (Zeros(-dot) + digits)
    else if dot >= |digits| then digits + Zeros(dot - |digits|)
    else digits[..dot] + "." + digits[dot..]
  }

  /** The exponent suffix of the rendering, empty in plain notation. */
  function ExponentText(u: Unsigned): string
  {
    var digits := NatToString(u.coefficient);
    var leftDigits := u.exponent + |digits|;
    var dot := DotPlace(|digits|, u.exponent);
    if leftDigits == dot then "" else "E" + SignedToString(leftDigits - dot)
  }

  function UnsignedToString(u: Unsigned): string
  {
    MantissaText(u) + ExponentText(u)
  }

  /** `str(d)`: plain notation for exponents from -6 - |digits| to 0, scientific otherwise. */
  function DecimalToString(d: Decimal): string
  {
    (if d.negative then "-" else "") + UnsignedToString(Unsigned(d.coefficient, d.exponent))
  }

  // ---------------------------------------------------------------------
  // Round trip: Decimal(str(d)) == d, digit for digit
  // ---------------------------------------------------------------------

  predicate Yields(o: Option<Unsigned>, coefficient: nat, exponent: int) {
    o.Some? && o.value.coefficient == coefficient && o.value.exponent == exponent
  }

  lemma ParseExponentRoundTrip(v: int)
    ensures ParseExponent(SignedToString(v)).Some? && ParseExponent(SignedToString(v)).value == v
  {
    var s := SignedToString(v);
    if v >= 0 {
      assert s[1..] == NatToString(v);
      NatToStringValue(v);
    } else {
      assert s[1..] == NatToString(-v);
      NatToStringValue(-v);
    }
  }

  lemma DigitsWithoutPoint(a: string)
    requires AllDigits(a)
    ensures '.' !in a && NoExponentMark(a)
  {
    forall i | 0 <= i < |a| ensures a[i] != '.' && !IsExponentMark(a[i]) {
      assert IsDigit(a[i]);
    }
  }

  lemma MantissaWhole(a: string)
    requires a != [] && AllDigits(a)
    ensures Yields(ParseMantissa(a), DigitsValue(a), 0)
  {
    DigitsWithoutPoint(a);
    assert Find(a, '.') == |a|;
    assert a[..|a|] == a;
    assert a + "" == a;
  }

  lemma MantissaPoint(a: string, b: string)
    requires AllDigits(a) && AllDigits(b) && |a| + |b| > 0
    ensures Yields(ParseMantissa(a + "." + b), DigitsValue(a + b), -|b|)
  {
    var m := a + "." + b;
    DigitsWithoutPoint(a);
    assert m[|a|] == '.';
    assert Find(m, '.') == |a| by {
      assert forall i :: 0 <= i < |a| ==> m[i] == a[i];
    }
    assert m[..|a|] == a;
    assert m[|a| + 1..] == b;
  }

  predicate NoExponentMark(s: string) {
    forall i :: 0 <= i < |s| ==> !IsExponentMark(s[i])
  }

  lemma UnsignedNoExponent(m: string, coefficient: nat, exponent: int)
    requires NoExponentMark(m) && Yields(ParseMantissa(m), coefficient, exponent)
    ensures Yields(ParseUnsigned(m), coefficient, exponent)
  {
    assert FindExponentMark(m) == |m|;
    assert m[..|m|] == m;
  }

  lemma UnsignedWithExponent(m: string, v: int, coefficient: nat, exponent: int)
    requires NoExponentMark(m) && Yields(ParseMantissa(m), coefficient, exponent)
    ensures Yields(ParseUnsigned(m + "E" + SignedToString(v)), coefficient, exponent + v)
  {
    var s := m + "E" + SignedToString(v);
    assert s[|m|] == 'E';
    assert FindExponentMark(s) == |m| by {
      assert forall i :: 0 <= i < |m| ==> s[i] == m[i];
    }
    assert s[..|m|] == m;
    assert s[|m| + 1..] == SignedToString(v);
    ParseExponentRoundTrip(v);
  }

  lemma DigitsConcat(a: string, b: string)
    requires AllDigits(a) && AllDigits(b)
    ensures AllDigits(a + b)
  {
    forall i | 0 <= i < |a + b| ensures IsDigit((a + b)[i]) {
      if i < |a| { assert (a + b)[i] == a[i]; } else { assert (a + b)[i] == b[i - |a|]; }
    }
  }

  lemma PointNoMark(a: string, b: string)
    requires AllDigits(a) && AllDigits(b)
    ensures NoExponentMark(a + "." + b)
  {
    var m := a + "." + b;
    forall i | 0 <= i < |m| ensures !IsExponentMark(m[i]) {
      if i < |a| { assert m[i] == a[i]; assert IsDigit(a[i]); }
      else if i > |a| { assert m[i] == b[i - |a| - 1]; assert IsDigit(b[i - |a| - 1]); }
    }
  }

  lemma LeadingZero(s: string)
    requires AllDigits(s)
    ensures AllDigits("0" + s) && DigitsValue("0" + s) == DigitsValue(s)
  {
    assert Zeros(1) == "0";
    DigitsValueLeadingZeros(1, s);
  }

  /** A plain rendering `0.000ddd` reads back as its digits, scaled by the digits after the point. */
  lemma FractionMantissa(z: nat, digits: string)
    requires AllDigits(digits) && digits != []
    ensures NoExponentMark("0" + "." + (Zeros(z) + digits))
    ensures Yields(ParseMantissa("0" + "." + (Zeros(z) + digits)), DigitsValue(digits), -(z + |digits|))
  {
    var frac := Zeros(z) + digits;
    DigitsValueLeadingZeros(z, digits);
    LeadingZero(frac);
    MantissaPoint("0", frac);
    PointNoMark("0", frac);
  }

  lemma DigitsSlices(s: string, k: nat)
    requires AllDigits(s) && k <= |s|
    ensures AllDigits(s[..k]) && AllDigits(s[k..]) && s[..k] + s[k..] == s
  {
    assert forall i :: 0 <= i < k ==> s[..k][i] == s[i];
    assert forall i :: 0 <= i < |s| - k ==> s[k..][i] == s[k + i];
  }

  /** A rendering `ddd.ddd` reads back as its digits, scaled by the digits after the point. */
  lemma SplitMantissa(digits: string, dot: nat)
    requires AllDigits(digits) && 0 < dot < |digits|
    ensures NoExponentMark(digits[..dot] + "." + digits[dot..])
    ensures Yields(ParseMantissa(digits[..dot] + "." + digits[dot..]), DigitsValue(digits), dot - |digits|)
  {
    var a, b := digits[..dot], digits[dot..];
    DigitsSlices(digits, dot);
    MantissaPoint(a, b);
    PointNoMark(a, b);
  }

  /** The mantissa of the rendering reads back as the coefficient, with the exponent its point implies. */
  lemma MantissaOfRendering(u: Unsigned)
    ensures NoExponentMark(MantissaText(u))
    ensures Yields(ParseMantissa(MantissaText(u)), u.coefficient,
                   DotPlace(|NatToString(u.coefficient)|, u.exponent) - |NatToString(u.coefficient)|)
  {
    var digits := NatToString(u.coefficient);
    var dot := DotPlace(|digits|, u.exponent);
    NatToStringValue(u.coefficient);
    if dot <= 0 {
      FractionMantissa(-dot, digits);
    } else if dot >= |digits| {
      assert dot == |digits|;
      assert MantissaText(u) == digits + Zeros(0);
      assert digits + Zeros(0) == digits;
      MantissaWhole(digits);
      DigitsWithoutPoint(digits);
    } else {
      SplitMantissa(digits, dot);
    }
  }

  lemma UnsignedRoundTrip(u: Unsigned)
    ensures Yields(ParseUnsigned(UnsignedToString(u)), u.coefficient, u.exponent)
  {
    var digits := NatToString(u.coefficient);
    var dot := DotPlace(|digits|, u.exponent);
    var leftDigits := u.exponent + |digits|;
    var m := MantissaText(u);
    MantissaOfRendering(u);
    if leftDigits == dot {
      assert UnsignedToString(u) == m;
      UnsignedNoExponent(m, u.coefficient, dot - |digits|);
    } else {
      assert UnsignedToString(u) == m + "E" + SignedToString(leftDigits - dot);
      UnsignedWithExponent(m, leftDigits - dot, u.coefficient, dot - |digits|);
    }
  }

  lemma SignedEnds(v: int)
    ensures IsDigit(SignedToString(v)[|SignedToString(v)| - 1])
  {
    var e := SignedToString(v);
    var n := if v >= 0 then v else -v;
    var t := NatToString(n);
    assert e == [e[0]] + t;
    assert e[|e| - 1] == t[|t| - 1];
  }

  lemma MantissaEnds(u: Unsigned)
    ensures var m := MantissaText(u); m != [] && IsDigit(m[0]) && IsDigit(m[|m| - 1])
  {
    var digits := NatToString(u.coefficient);
    var dot := DotPlace(|digits|, u.exponent);
    var m := MantissaText(u);
    if dot <= 0 {
      var frac := Zeros(-dot) + digits;
      assert m == "0" + "." + frac;
      assert m[|m| - 1] == frac[|frac| - 1] == digits[|digits| - 1];
    } else if dot >= |digits| {
      assert dot == |digits|;
      assert m == digits + Zeros(0) == digits;
    } else {
      assert m == digits[..dot] + "." + digits[dot..];
      assert m[0] == digits[0];
      assert m[|m| - 1] == digits[|digits| - 1];
    }
  }

  /** The rendering starts and ends with a digit. */
  lemma RenderingEnds(u: Unsigned)
    ensures var s := UnsignedToString(u); s != [] && IsDigit(s[0]) && IsDigit(s[|s| - 1])
  {
    var m := MantissaText(u);
    var x := ExponentText(u);
    var s := UnsignedToString(u);
    MantissaEnds(u);
    assert s == m + x;
    assert s[0] == m[0];
    if x == [] {
      assert s == m;
    } else {
      var digits := NatToString(u.coefficient);
      var e := SignedToString(u.exponent + |digits| - DotPlace(|digits|, u.exponent));
      assert x == "E" + e;
      SignedEnds(u.exponent + |digits| - DotPlace(|digits|, u.exponent));
      assert s[|s| - 1] == e[|e| - 1];
    }
  }

  /** The rendering of a decimal has no surrounding whitespace to strip. */
  lemma RenderingUnspaced(d: Decimal)
    ensures Strip(DecimalToString(d)) == DecimalToString(d)
  {
    var body := UnsignedToString(Unsigned(d.coefficient, d.exponent));
    var s := DecimalToString(d);
    RenderingEnds(Unsigned(d.coefficient, d.exponent));
    assert s[|s| - 1] == body[|body| - 1];
    StripUnspaced(s);
  }

  /** A sign in front of an unsigned number that reads back as (c, e) gives the signed decimal. */
  lemma SignedOfBody(negative: bool, body: string, c: nat, e: int)
    requires body != [] && IsDigit(body[0]) && Yields(ParseUnsigned(body), c, e)
    ensures var r := ParseSignedDecimal((if negative then "-" else "") + body);
      r.Ok? && r.value.negative == negative && r.value.coefficient == c && r.value.exponent == e
  {
    if negative {
      assert ("-" + body)[1..] == body;
    } else {
      assert "" + body == body;
    }
  }

  /** Text that starts with a digit and ends without whitespace is read as the unsigned number it spells. */
  lemma PlainDecimal(body: string, c: nat, e: int)
    requires body != [] && IsDigit(body[0]) && !IsSpace(body[|body| - 1]) && Yields(ParseUnsigned(body), c, e)
    ensures ParseDecimal(body).Ok? && ParseDecimal(body).value == Decimal(false, c, e)
  {
    StripUnspaced(body);
    SignedOfBody(false, body, c, e);
    assert "" + body == body;
  }

  /** `Decimal(str(d)) == d` with the same sign, coefficient and exponent, for every finite d. */
  lemma DecimalRoundTrip(d: Decimal)
    ensures ParseDecimal(DecimalToString(d)).Ok?
    ensures ParseDecimal(DecimalToString(d)).value == d
  {
    var u := Unsigned(d.coefficient, d.exponent);
    var body := UnsignedToString(u);
    var s := DecimalToString(d);
    UnsignedRoundTrip(u);
    RenderingUnspaced(d);
    RenderingEnds(u);
    SignedOfBody(d.negative, body, d.coefficient, d.exponent);
  }

  /** Digits, a point and digits are read as the decimal they spell. */
  lemma PointedDecimal(a: string, b: string)
    requires AllDigits(a) && AllDigits(b) && a != []
    ensures ParseDecimal(a + "." + b).Ok? && ParseDecimal(a + "." + b).value == Decimal(false, DigitsValue(a + b), -|b|)
  {
    var m := a + "." + b;
    PointedUnsigned(a, b);
    PointedEnds(a, b);
    PlainDecimal(m, DigitsValue(a + b), -|b|);
  }

  lemma PointedUnsigned(a: string, b: string)
    requires AllDigits(a) && AllDigits(b) && a != []
    ensures Yields(ParseUnsigned(a + "." + b), DigitsValue(a + b), -|b|)
  {
    PointNoMark(a, b);
    MantissaPoint(a, b);
    UnsignedNoExponent(a + "." + b, DigitsValue(a + b), -|b|);
  }

  /** Digits, a point and digits start with a digit and end without whitespace. */
  lemma PointedEnds(a: string, b: string)
    requires AllDigits(a) && AllDigits(b) && a != []
    ensures var m := a + "." + b; IsDigit(m[0]) && !IsSpace(m[|m| - 1])
  {
    var m := a + "." + b;
    assert m[0] == a[0];
    if b != [] {
      assert m[|m| - 1] == b[|b| - 1];
    }
  }
}
