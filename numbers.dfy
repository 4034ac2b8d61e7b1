/**
 * Python's `int(text)` and `float(text)` on decimal text, and the rounding and
 * clamping the importer applies to decimals. Decimals are exact `Dec(units, places)`.
 */
module Numbers {

  import opened Wrappers
  import opened Strings
  import opened Values

  predicate AllDigits(s: string)
  {
    forall i :: 0 <= i < |s| ==> IsDigit(s[i])
  }

  predicate NoSpace(s: string)
  {
    forall i :: 0 <= i < |s| ==> !IsSpace(s[i])
  }

  lemma StripNoSpace(s: string)
    requires NoSpace(s)
    ensures Strip(s) == s
  {
    if s != [] {
      assert !IsSpace(s[0]) && !IsSpace(s[|s| - 1]);
    }
  }

  /** Whether the text starts with '-', and the text after an optional leading sign. */
  function SignOf(t: string): (r: (bool, string))
    ensures |r.1| <= |t|
  {
    if |t| > 0 && t[0] == '-' then (true, t[1..])
    else if |t| > 0 && t[0] == '+' then (false, t[1..])
    else (false, t)
  }

  function Signed(negative: bool, magnitude: int): int
  {
    if negative then -magnitude else magnitude
  }

  /**
   * Python's digit part: ASCII digits, where a single '_' may stand between two digits
   * (`1_000`), though not first, last or twice in a row.
   */
  predicate DigitPart(s: string)
  {
    s != [] && IsDigit(s[0]) && IsDigit(s[|s| - 1]) &&
    (forall i :: 0 <= i < |s| ==> IsDigit(s[i]) || s[i] == '_') &&
    (forall i :: 0 <= i < |s| - 1 ==> !DoubleSeparator(s, i))
  }

  predicate DoubleSeparator(s: string, i: int)
    requires 0 <= i < |s| - 1
  {
    s[i] == '_' && s[i + 1] == '_'
  }

  /** The digits of a digit part, its separators dropped; plain digits are their own digits. */
  function PartDigits(s: string): (r: string)
    requires forall i :: 0 <= i < |s| ==> IsDigit(s[i]) || s[i] == '_'
    ensures AllDigits(r)
    ensures AllDigits(s) ==> r == s
  {
    var r := RemoveChar(s, '_');
    assert AllDigits(r) by {
      forall i | 0 <= i < |r| ensures IsDigit(r[i]) {
        assert r[i] in r;
        var j :| 0 <= j < |s| && s[j] == r[i];
      }
    }
    assert AllDigits(s) ==> '_' !in s;
    r
  }

  /**
   * `int(text)`: surrounding whitespace, an optional sign, then a digit part; the value is
   * that of its digits, negated after a '-'.
   */
  function ParseInt(text: string): (r: Option<int>)
    ensures r.Some? <==> DigitPart(SignOf(Strip(text)).1)
    ensures r.Some? ==> r.value == Signed(SignOf(Strip(text)).0, DigitsValue(PartDigits(SignOf(Strip(text)).1)))
  {
    ParseSigned(Strip(text))
  }

  function ParseSigned(t: string): Option<int>
  {
    var (negative, body) := SignOf(t);
    if DigitPart(body) then Some(Signed(negative, DigitsValue(PartDigits(body)))) else None
  }

  lemma DigitsNoSpace(s: string)
    requires AllDigits(s)
    ensures NoSpace(s)
  {
    forall k | 0 <= k < |s| ensures !IsSpace(s[k]) {
      assert IsDigit(s[k]);
    }
  }

  lemma IntStrNoSpace(i: int)
    ensures NoSpace(IntStr(i))
  {
    var digits := NatStr(if i >= 0 then i else -i);
    DigitsNoSpace(digits);
    if i < 0 {
      var s := IntStr(i);
      assert s == "-" + digits;
      forall k | 0 <= k < |s| ensures !IsSpace(s[k]) {
        if k > 0 { assert s[k] == digits[k - 1]; }
      }
    }
  }

  /** `int('%d' % i) == i`: the integer text of any integer reads back as that integer. */
  lemma ParseIntStr(i: int)
    ensures ParseInt(IntStr(i)) == Some(i)
  {
    var t := IntStr(i);
    assert Strip(t) == t by {
      IntStrNoSpace(i);
      StripNoSpace(t);
    }
    var negative := i < 0;
    var n: nat := if negative then -i else i;
    assert t == (if negative then "-" else "") + NatStr(n);
    ParseSignedNat(negative, n);
  }

  lemma {:induction false} ParseSignedNat(negative: bool, n: nat)
    ensures ParseSigned((if negative then "-" else "") + NatStr(n)) == Some(Signed(negative, n))
  {
    var digits := NatStr(n);
    assert IsDigit(digits[0]) && AllDigits(digits);
    DigitsArePart(digits);
    NatStrValue(n);
    SignedText(negative, digits);
  }

  /** Either side of a decimal point may be empty, though not both. */
  predicate OptionalPart(s: string)
  {
    s == [] || DigitPart(s)
  }

  /** Two sides of a single point, at least one of them holding digits. */
  predicate PointedParts(parts: seq<string>)
  {
    |parts| == 2 && parts[0] + parts[1] != [] && OptionalPart(parts[0]) && OptionalPart(parts[1])
  }

  /** The value of `whole.fraction` in units of the last fraction digit. */
  function PointValue(whole: string, fraction: string): nat
    requires AllDigits(whole) && AllDigits(fraction)
  {
    DigitsValue(whole) * Pow10(|fraction|) + DigitsValue(fraction)
  }

  /**
   * `float(text)` on plain decimal notation: whitespace, an optional sign, digit parts with
   * at most one '.', and at least one digit. The value is kept exact, with one place per
   * fraction digit written.
   */
  function ParseDecimal(text: string): (r: Option<Value>)
    ensures r.Some? ==> r.value.Dec?
    ensures var parts := Split(SignOf(Strip(text)).1, ".");
      r.Some? <==> (|parts| == 1 && DigitPart(parts[0])) || PointedParts(parts)
    ensures var sign := SignOf(Strip(text)); var parts := Split(sign.1, ".");
      |parts| == 1 && DigitPart(parts[0]) ==> r == Some(Dec(Signed(sign.0, DigitsValue(PartDigits(parts[0]))), 0))
    ensures var sign := SignOf(Strip(text)); var parts := Split(sign.1, ".");
      PointedParts(parts) ==>
        r == Some(Dec(Signed(sign.0, PointValue(PartDigits(parts[0]), PartDigits(parts[1]))), |PartDigits(parts[1])|))
  {
    var (negative, body) := SignOf(Strip(text));
    var parts := Split(body, ".");
    if |parts| == 1 && DigitPart(parts[0]) then
      Some(Dec(Signed(negative, DigitsValue(PartDigits(parts[0]))), 0))
    else if PointedParts(parts) then
      var whole := PartDigits(parts[0]);
      var fraction := PartDigits(parts[1]);
      Some(Dec(Signed(negative, PointValue(whole, fraction)), |fraction|))
    else None
  }

  /** Text that `int()` accepts reads as the same whole number through `float()`. */
  lemma ParseDecimalOfInteger(text: string)
    requires ParseInt(text).Some?
    ensures ParseDecimal(text) == Some(Dec(ParseInt(text).value, 0))
  {
    var (negative, body) := SignOf(Strip(text));
    assert '.' !in body;
    FindNone(body, '.');
    FindContains(body, ".");
    SplitWithoutSeparator(body, ".");
  }

  /** A leading zero does not change the value of a run of digits. */
  lemma {:induction false} LeadingZeroValue(d: string)
    requires AllDigits(d)
    ensures AllDigits("0" + d) && DigitsValue("0" + d) == DigitsValue(d)
    decreases |d|
  {
    var s := "0" + d;
    assert AllDigits(s) by {
      forall i | 0 <= i < |s| ensures IsDigit(s[i]) {
        if i > 0 { assert s[i] == d[i - 1]; }
      }
    }
    if d != [] {
      var init := d[..|d| - 1];
      LeadingZeroValue(init);
      assert s[..|s| - 1] == "0" + init;
      assert s[|s| - 1] == d[|d| - 1];
    }
  }

  lemma {:induction false} ZerosValue(z: nat, d: string)
    requires AllDigits(d)
    ensures AllDigits(Zeros(z) + d) && DigitsValue(Zeros(z) + d) == DigitsValue(d)
    decreases z
  {
    if z > 0 {
      ZerosValue(z - 1, d);
      assert Zeros(z) + d == "0" + (Zeros(z - 1) + d);
      LeadingZeroValue(Zeros(z - 1) + d);
    } else {
      assert Zeros(z) + d == d;
    }
  }

  /** A number below `10^k` takes at most `k` digits. */
  lemma {:induction false} NatStrLength(n: nat, k: nat)
    requires k >= 1 && n < Pow10(k)
    ensures |NatStr(n)| <= k
    decreases n
  {
    if n >= 10 {
      assert k >= 2;
      NatStrLength(n / 10, k - 1);
    }
  }

  /** The fraction digits `str(Decimal)` writes: exactly `width` digits worth `n`. */
  lemma {:induction false} PadDigitsValue(n: nat, width: nat)
    requires width >= 1 && n < Pow10(width)
    ensures |PadDigits(n, width)| == width
    ensures AllDigits(PadDigits(n, width)) && DigitsValue(PadDigits(n, width)) == n
  {
    NatStrLength(n, width);
    NatStrValue(n);
    if |NatStr(n)| < width {
      PadWithZeros(n, width);
    }
  }

  lemma {:induction false} PadWithZeros(n: nat, width: nat)
    requires |NatStr(n)| < width
    ensures PadDigits(n, width) == Zeros(width - |NatStr(n)|) + NatStr(n)
    ensures AllDigits(PadDigits(n, width)) && DigitsValue(PadDigits(n, width)) == DigitsValue(NatStr(n))
  {
    var d, p := NatStr(n), PadDigits(n, width);
    assert p == Zeros(width - |d|) + d;
    assert AllDigits(p) && DigitsValue(p) == DigitsValue(d) by {
      assert AllDigits(d);
      ZerosValue(width - |d|, d);
    }
  }

  lemma {:induction false} DigitsArePart(d: string)
    requires d != [] && AllDigits(d)
    ensures DigitPart(d) && PartDigits(d) == d && '.' !in d && NoSpace(d)
  {
    DigitsNoSpace(d);
  }

  lemma {:induction false} NoSpaceConcat(a: string, b: string)
    requires NoSpace(a) && NoSpace(b)
    ensures NoSpace(a + b)
  {
    var t := a + b;
    forall i | 0 <= i < |t| ensures !IsSpace(t[i]) {
      if i >= |a| { assert t[i] == b[i - |a|]; }
    }
  }

  /** Text that starts with a digit and holds no whitespace, after an optional '-'. */
  lemma {:induction false} SignedText(negative: bool, body: string)
    requires body != [] && IsDigit(body[0]) && NoSpace(body)
    ensures var t := (if negative then "-" else "") + body;
      Strip(t) == t && SignOf(t) == (negative, body)
  {
    var sign := if negative then "-" else "";
    var t := sign + body;
    NoSpaceConcat(sign, body);
    StripNoSpace(t);
    if negative {
      assert t[0] == '-' && t[1..] == body;
    } else {
      assert t == body;
    }
  }

  lemma {:induction false} SplitAtPoint(whole: string, fraction: string)
    requires whole != [] && fraction != [] && AllDigits(whole) && AllDigits(fraction)
    ensures Split(whole + "." + fraction, ".") == [whole, fraction]
    ensures NoSpace(whole + "." + fraction)
  {
    DigitsArePart(whole);
    DigitsArePart(fraction);
    assert Join(".", [whole, fraction]) == whole + "." + fraction;
    SplitJoin([whole, fraction], '.');
    NoSpaceConcat(whole, ".");
    NoSpaceConcat(whole + ".", fraction);
  }

  /** Digits, a point and digits, after an optional '-', read as the decimal they spell. */
  lemma {:induction false} ParsePointed(negative: bool, whole: string, fraction: string)
    requires whole != [] && fraction != [] && AllDigits(whole) && AllDigits(fraction)
    ensures ParseDecimal((if negative then "-" else "") + (whole + "." + fraction)) ==
      Some(Dec(Signed(negative, PointValue(whole, fraction)), |fraction|))
  {
    var body := whole + "." + fraction;
    SplitAtPoint(whole, fraction);
    assert body[0] == whole[0];
    SignedText(negative, body);
    DigitsArePart(whole);
    DigitsArePart(fraction);
  }

  lemma WholeAndFraction(mag: nat, places: nat)
    ensures WholePart(mag, places) * Pow10(places) + FractionPart(mag, places) == mag
  {
    var p := Pow10(places);
    assert mag == (mag / p) * p + mag % p;
  }

  /** `float(str(d)) == d` for a decimal: the text of any decimal reads back as that decimal. */
  lemma {:induction false} ParseDecimalStr(units: int, places: nat)
    ensures ParseDecimal(DecStr(units, places)) == Some(Dec(units, places))
  {
    if places == 0 {
      assert DecStr(units, 0) == IntStr(units);
      ParseIntStr(units);
      ParseDecimalOfInteger(IntStr(units));
    } else {
      var mag: nat := if units < 0 then -units else units;
      var w := WholePart(mag, places);
      var f := FractionPart(mag, places);
      PadDigitsValue(f, places);
      NatStrValue(w);
      assert AllDigits(NatStr(w));
      var whole := NatStr(w);
      var fraction := PadDigits(f, places);
      assert DecStr(units, places) == (if units < 0 then "-" else "") + (whole + "." + fraction);
      ParsePointed(units < 0, whole, fraction);
      WholeAndFraction(mag, places);
      assert PointValue(whole, fraction) == mag;
      assert Signed(units < 0, mag) == units;
    }
  }

  /**
   * Every spelling `float()` takes with a point reads as the decimal its digits spell:
   * surrounding whitespace, a '+' or '-' sign, an empty whole or fraction side, leading
   * zeros and digit-group underscores.
   */
  lemma {:induction false} ParseDecimalSpelled(lead: string, sign: string, whole: string, fraction: string, trail: string)
    requires forall i :: 0 <= i < |lead| ==> IsSpace(lead[i])
    requires forall i :: 0 <= i < |trail| ==> IsSpace(trail[i])
    requires sign == "" || sign == "+" || sign == "-"
    requires OptionalPart(whole) && OptionalPart(fraction) && whole + fraction != []
    ensures ParseDecimal(lead + (sign + (whole + "." + fraction)) + trail) ==
      Some(Dec(Signed(sign == "-", PointValue(PartDigits(whole), PartDigits(fraction))), |PartDigits(fraction)|))
  {
    var body := whole + "." + fraction;
    SpelledStrip(lead, sign, whole, fraction, trail);
    SpelledSign(sign, whole, fraction);
    PointSplit(whole, fraction);
    assert PointedParts([whole, fraction]);
  }

  lemma {:induction false} SpelledStrip(lead: string, sign: string, whole: string, fraction: string, trail: string)
    requires forall i :: 0 <= i < |lead| ==> IsSpace(lead[i])
    requires forall i :: 0 <= i < |trail| ==> IsSpace(trail[i])
    requires sign == "" || sign == "+" || sign == "-"
    requires OptionalPart(whole) && OptionalPart(fraction)
    ensures Strip(lead + (sign + (whole + "." + fraction)) + trail) == sign + (whole + "." + fraction)
  {
    var body := whole + "." + fraction;
    var t := sign + body;
    assert !IsSpace(t[0]) by {
      assert t[0] == (if sign == "" then body[0] else sign[0]);
      assert body[0] == (if whole == [] then '.' else whole[0]);
    }
    assert !IsSpace(t[|t| - 1]) by {
      assert t[|t| - 1] == body[|body| - 1];
      assert body[|body| - 1] == (if fraction == [] then '.' else fraction[|fraction| - 1]);
    }
    StripSurrounded(lead, t, trail);
  }

  lemma {:induction false} SpelledSign(sign: string, whole: string, fraction: string)
    requires sign == "" || sign == "+" || sign == "-"
    requires OptionalPart(whole)
    ensures SignOf(sign + (whole + "." + fraction)) == (sign == "-", whole + "." + fraction)
  {
    var body := whole + "." + fraction;
    var t := sign + body;
    assert body[0] == (if whole == [] then '.' else whole[0]);
    if sign != "" {
      assert t[0] == sign[0] && t[1..] == body;
    } else {
      assert t == body;
    }
  }

  lemma {:induction false} PointSplit(whole: string, fraction: string)
    requires OptionalPart(whole) && OptionalPart(fraction)
    ensures Split(whole + "." + fraction, ".") == [whole, fraction]
  {
    assert '.' !in whole && '.' !in fraction;
    assert Join(".", [whole, fraction]) == whole + "." + fraction;
    SplitJoin([whole, fraction], '.');
  }

  /** A concrete spelling of a decimal: its text and value given outright. */
  lemma SpelledDecimal(text: string, lead: string, sign: string, whole: string, fraction: string, trail: string,
                       value: int, places: nat)
    requires forall i :: 0 <= i < |lead| ==> IsSpace(lead[i])
    requires forall i :: 0 <= i < |trail| ==> IsSpace(trail[i])
    requires sign == "" || sign == "+" || sign == "-"
    requires OptionalPart(whole) && OptionalPart(fraction) && whole + fraction != []
    requires text == lead + (sign + (whole + "." + fraction)) + trail
    requires value == Signed(sign == "-", PointValue(PartDigits(whole), PartDigits(fraction)))
    requires places == |PartDigits(fraction)|
    ensures ParseDecimal(text) == Some(Dec(value, places))
  {
    ParseDecimalSpelled(lead, sign, whole, fraction, trail);
  }

  /** The value of two digits: the first counts ten times. */
  lemma TwoDigitsValue(s: string)
    requires |s| == 2 && IsDigit(s[0]) && IsDigit(s[1])
    ensures DigitsValue(s) == DigitValue(s[0]) * 10 + DigitValue(s[1])
  {
    assert s[..1][..0] == [];
    assert DigitsValue(s[..1]) == DigitValue(s[0]);
  }

  /** `.5`: the whole side may be left empty. */
  lemma EmptyWholeSpelling()
    ensures ParseDecimal(".5") == Some(Dec(5, 1))
  {
    assert OptionalPart("5") && OptionalPart("") && PartDigits("5") == "5" && PartDigits("") == "" by {
      DigitsArePart("5");
    }
    assert PointValue("", "5") == 5 by {
      assert DigitsValue("5") == 5;
    }
    assert "" + ("" + ("" + "." + "5")) + "" == ".5";
    SpelledDecimal(".5", "", "", "", "5", "", 5, 1);
  }

  /** `5.`: the fraction side may be left empty, and then there are no places. */
  lemma EmptyFractionSpelling()
    ensures ParseDecimal("5.") == Some(Dec(5, 0))
  {
    assert OptionalPart("5") && OptionalPart("") && PartDigits("5") == "5" && PartDigits("") == "" by {
      DigitsArePart("5");
    }
    assert PointValue("5", "") == 5 by {
      assert DigitsValue("5") == 5;
    }
    assert "" + ("" + ("5" + "." + "")) + "" == "5.";
    SpelledDecimal("5.", "", "", "5", "", "", 5, 0);
  }

  /** `+1.50`: a plus sign is allowed, and a trailing zero counts as a place. */
  lemma SignedSpelling()
    ensures ParseDecimal("+1.50") == Some(Dec(150, 2))
  {
    assert OptionalPart("1") && OptionalPart("50") && PartDigits("1") == "1" && PartDigits("50") == "50" by {
      DigitsArePart("1");
      DigitsArePart("50");
    }
    assert PointValue("1", "50") == 150 by {
      assert Pow10(2) == 10 * Pow10(1) == 100;
      assert DigitsValue("1") == 1;
      TwoDigitsValue("50");
    }
    assert "" + ("+" + ("1" + "." + "50")) + "" == "+1.50";
    SpelledDecimal("+1.50", "", "+", "1", "50", "", 150, 2);
  }

  /** A concrete spelling whose whole part is two digit groups joined by an underscore. */
  lemma GroupedSpelledDecimal(text: string, lead: string, sign: string, a: string, b: string, fraction: string,
                              trail: string, value: int, places: nat)
    requires forall i :: 0 <= i < |lead| ==> IsSpace(lead[i])
    requires forall i :: 0 <= i < |trail| ==> IsSpace(trail[i])
    requires sign == "" || sign == "+" || sign == "-"
    requires a != [] && b != [] && AllDigits(a) && AllDigits(b) && OptionalPart(fraction)
    requires text == lead + (sign + ((a + "_" + b) + "." + fraction)) + trail
    requires value == Signed(sign == "-", PointValue(a + b, PartDigits(fraction)))
    requires places == |PartDigits(fraction)|
    ensures ParseDecimal(text) == Some(Dec(value, places))
  {
    GroupedPart(a, b);
    SpelledDecimal(text, lead, sign, a + "_" + b, fraction, trail, value, places);
  }

  /** ` 1_0.25 `: surrounding whitespace and digit-group underscores are allowed. */
  lemma GroupedSpelling()
    ensures ParseDecimal(" 1_0.25 ") == Some(Dec(1025, 2))
  {
    assert OptionalPart("25") && PartDigits("25") == "25" by {
      DigitsArePart("25");
    }
    assert PointValue("1" + "0", "25") == 1025 by {
      assert "1" + "0" == "10";
      assert Pow10(2) == 10 * Pow10(1) == 100;
      TwoDigitsValue("10");
      TwoDigitsValue("25");
    }
    assert IsSpace(' ');
    assert " " + ("" + (("1" + "_" + "0") + "." + "25")) + " " == " 1_0.25 ";
    GroupedSpelledDecimal(" 1_0.25 ", " ", "", "1", "0", "25", " ", 1025, 2);
  }

  /** `01.5`: leading zeros are allowed. */
  lemma LeadingZeroSpelling()
    ensures ParseDecimal("01.5") == Some(Dec(15, 1))
  {
    assert OptionalPart("01") && OptionalPart("5") && PartDigits("01") == "01" && PartDigits("5") == "5" by {
      DigitsArePart("01");
      DigitsArePart("5");
    }
    assert PointValue("01", "5") == 15 by {
      TwoDigitsValue("01");
      assert DigitsValue("5") == 5 && Pow10(1) == 10;
    }
    assert "" + ("" + ("01" + "." + "5")) + "" == "01.5";
    SpelledDecimal("01.5", "", "", "01", "5", "", 15, 1);
  }

  /** Digits may be grouped with a single underscore, which does not change the number read. */
  lemma {:induction false} GroupedDigits(a: string, b: string)
    requires a != [] && b != [] && AllDigits(a) && AllDigits(b)
    ensures ParseInt(a + "_" + b) == ParseInt(a + b) && ParseInt(a + b).Some?
  {
    var s := a + "_" + b;
    GroupedPart(a, b);
    ConcatDigits(a, b);
    DigitsArePart(a + b);
    SignedText(false, s);
    SignedText(false, a + b);
    assert "" + s == s && "" + (a + b) == a + b;
  }

  lemma {:induction false} GroupedPart(a: string, b: string)
    requires a != [] && b != [] && AllDigits(a) && AllDigits(b)
    ensures DigitPart(a + "_" + b) && PartDigits(a + "_" + b) == a + b
    ensures NoSpace(a + "_" + b) && IsDigit((a + "_" + b)[0])
  {
    var s := a + "_" + b;
    assert s[0] == a[0] && s[|s| - 1] == b[|b| - 1];
    forall i | 0 <= i < |s| ensures IsDigit(s[i]) || s[i] == '_' {
      if i < |a| { assert s[i] == a[i]; } else if i > |a| { assert s[i] == b[i - |a| - 1]; }
    }
    forall i | 0 <= i < |s| - 1 ensures !DoubleSeparator(s, i) {
      if i < |a| { assert s[i] == a[i]; } else { assert s[i + 1] == b[i - |a|]; }
    }
    forall i | 0 <= i < |s| ensures !IsSpace(s[i]) {
      assert IsDigit(s[i]) || s[i] == '_';
    }
    GroupedRemoved(a, b);
  }

  lemma {:induction false} GroupedRemoved(a: string, b: string)
    requires AllDigits(a) && AllDigits(b)
    ensures RemoveChar(a + "_" + b, '_') == a + b
  {
    assert '_' !in a && '_' !in b by {
      forall j | 0 <= j < |a| ensures a[j] != '_' { assert IsDigit(a[j]); }
      forall j | 0 <= j < |b| ensures b[j] != '_' { assert IsDigit(b[j]); }
    }
    assert RemoveChar("_", '_') == [];
    RemoveCharAppend(a + "_", b, '_');
    RemoveCharAppend(a, "_", '_');
  }

  lemma {:induction false} ConcatDigits(a: string, b: string)
    requires AllDigits(a) && AllDigits(b)
    ensures AllDigits(a + b)
  {
    forall i | 0 <= i < |a + b| ensures IsDigit((a + b)[i]) {
      if i >= |a| { assert (a + b)[i] == b[i - |a|]; }
    }
  }

  /** A separator is refused twice in a row, first, or last. */
  lemma UnderscoreMisplaced()
    ensures ParseInt("1__0").None? && ParseInt("_1").None? && ParseInt("1_").None?
  {
    assert NoSpace("1__0") && NoSpace("_1") && NoSpace("1_");
    StripNoSpace("1__0");
    StripNoSpace("_1");
    StripNoSpace("1_");
    assert SignOf("1__0") == (false, "1__0") && DoubleSeparator("1__0", 1);
    assert SignOf("_1") == (false, "_1") && SignOf("1_") == (false, "1_");
  }

  /** `round(value, places)`: nearest multiple of `10^-places`, ties to even; shorter values unchanged. */
  function RoundDecimal(d: Value, places: nat): (r: Value)
    requires d.Dec?
    ensures r.Dec?
    ensures d.places <= places ==> r == d
    ensures d.places > places ==> (r.places == places &&
      var scale := Pow10(d.places - places);
      2 * (d.units - r.units * scale) <= scale && 2 * (r.units * scale - d.units) <= scale)
  {
    if d.places <= places then d
    else Dec(RoundHalfEven(d.units, Pow10(d.places - places)), places)
  }

  /** `pow(10, max_digits - decimal_places) - 1`, the largest value with that many whole digits. */
  function DecimalBound(maxDigits: nat, decimalPlaces: nat): (r: Value)
    ensures r.Dec?
  {
    if maxDigits >= decimalPlaces then Dec(Pow10(maxDigits - decimalPlaces) - 1, 0)
    else Dec(1 - Pow10(decimalPlaces - maxDigits), decimalPlaces - maxDigits)
  }

  /** `min(value, bound)`: the value unless the bound is strictly smaller. */
  function ClampDecimal(d: Value, bound: Value): (r: Value)
    requires d.Dec? && bound.Dec?
    ensures r.Dec? && DecLe(r, bound)
    ensures DecLe(d, bound) ==> r == d
    ensures !DecLe(d, bound) ==> r == bound
  {
    if DecLe(d, bound) then d else bound
  }

  /**
   * The decimal branch of the importer: parse, round when the field has decimal places,
   * clamp when it has a digit limit.
   */
  function CoerceDecimal(text: string, maxDigits: nat, decimalPlaces: nat): (r: Option<Value>)
    ensures r.Some? ==> r.value.Dec?
    ensures r.Some? <==> ParseDecimal(text).Some?
    ensures r.Some? && maxDigits != 0 ==> DecLe(r.value, DecimalBound(maxDigits, decimalPlaces))
    ensures r.Some? && decimalPlaces != 0 ==> r.value.places <= decimalPlaces || r.value.places == ParseDecimal(text).value.places
    ensures r.Some? ==> var d := ParseDecimal(text).value;
      var rounded := if decimalPlaces != 0 then RoundDecimal(d, decimalPlaces) else d;
      r.value == if maxDigits != 0 then ClampDecimal(rounded, DecimalBound(maxDigits, decimalPlaces)) else rounded
  {
    match ParseDecimal(text)
    case None => None
    case Some(d) =>
      var rounded := if decimalPlaces != 0 then RoundDecimal(d, decimalPlaces) else d;
      Some(if maxDigits != 0 then ClampDecimal(rounded, DecimalBound(maxDigits, decimalPlaces)) else rounded)
  }
}
