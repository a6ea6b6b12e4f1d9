/**
 Reading and printing decimals (src/core/decimal.ts: `parse`, `toString`, `toFixed`).

 A numeral is a `Literal`: the parts that the parser's regular expression names. The methods
 do what the code does, index by index; the functions beside them say what comes out in terms
 of the literal and of its value.
 */
module DecimalText {
  import opened Digits
  import opened FixedPoint
  import opened Truncation
  import opened Wrappers

  // ---------------------------------------------------------------------------
  // Numerals
  // ---------------------------------------------------------------------------

  datatype Exponent = Exponent(marker: char, sign: string, digits: string)

  datatype Literal = Literal(sign: string, intPart: string, dot: bool, frac: string, exp: Option<Exponent>)

  predicate IsSign(s: string) {
    s == "" || s == "+" || s == "-"
  }

  predicate IsMarker(c: char) {
    c == 'e' || c == 'E'
  }

  /** The numerals the regular expression at decimal.ts:49 accepts. */
  predicate WellFormed(lit: Literal) {
    && IsSign(lit.sign)
    && AllDigits(lit.intPart) && AllDigits(lit.frac)
    && (lit.intPart == "" ==> lit.dot && lit.frac != "")
    && (!lit.dot ==> lit.frac == "")
    && (lit.exp.Some? ==>
          && IsMarker(lit.exp.value.marker)
          && IsSign(lit.exp.value.sign)
          && AllDigits(lit.exp.value.digits)
          && lit.exp.value.digits != "")
  }

  function RenderExponent(exp: Option<Exponent>): string {
    match exp
    case None => ""
    case Some(e) => [e.marker] + e.sign + e.digits
  }

  function RenderFraction(dot: bool, frac: string): string {
    if dot then "." + frac else ""
  }

  function Render(lit: Literal): string {
    lit.sign + (lit.intPart + (RenderFraction(lit.dot, lit.frac) + RenderExponent(lit.exp)))
  }

  function ExponentValue(exp: Option<Exponent>): int
    requires exp.Some? ==> AllDigits(exp.value.digits)
  {
    match exp
    case None => 0
    case Some(e) => if e.sign == "-" then -(Value(e.digits) as int) else Value(e.digits)
  }

  // ---------------------------------------------------------------------------
  // The regular expression
  // ---------------------------------------------------------------------------

  function LeadingDigits(s: string): (n: nat)
    ensures n <= |s| && AllDigits(s[..n])
    ensures n < |s| ==> !IsDigit(s[n])
  {
    if s == "" || !IsDigit(s[0]) then 0
    else
      var n := 1 + LeadingDigits(s[1..]);
      assert forall i :: 1 <= i < n ==> s[i] == s[1..][i - 1];
      n
  }

  function LeadingSign(s: string): (n: nat)
    ensures n <= |s| && n <= 1 && IsSign(s[..n])
    ensures n == 0 && s != "" ==> s[0] != '+' && s[0] != '-'
  {
    if s != "" && (s[0] == '+' || s[0] == '-') then
      assert s[..1] == [s[0]];
      1
    else 0
  }

  /** The exponent part of the expression: empty, or a marker, a sign and digits to the end. */
  function SplitExponent(s: string): (r: Option<Option<Exponent>>)
    ensures r.Some? ==> s == RenderExponent(r.value)
  {
    if s == "" then Some(None)
    else if !IsMarker(s[0]) then None
    else
      var t := s[1..];
      var k := LeadingSign(t);
      if t[k..] != "" && AllDigits(t[k..]) then
        Rejoin(t, k);
        assert s == [s[0]] + t;
        Some(Some(Exponent(s[0], t[..k], t[k..])))
      else None
  }

  lemma Rejoin(s: string, k: nat)
    requires k <= |s|
    ensures s[..k] + s[k..] == s
  {
  }

  datatype FractionMatch = FractionMatch(dot: bool, frac: string, tail: string)

  /** An optional point with the digits behind it, and what follows. */
  function SplitFraction(s: string): (r: FractionMatch)
    ensures AllDigits(r.frac) && (!r.dot ==> r.frac == "")
    ensures s == RenderFraction(r.dot, r.frac) + r.tail
  {
    if s != "" && s[0] == '.' then
      var m := LeadingDigits(s[1..]);
      FractionMatch(true, s[1..][..m], s[1..][m..])
    else FractionMatch(false, "", s)
  }

  /** A match of the whole expression behind its sign. */
  function SplitUnsigned(sign: string, body: string): (r: Option<Literal>)
    ensures r.Some? ==> r.value.sign == sign && Render(r.value) == sign + body
  {
    var n := LeadingDigits(body);
    var fraction := SplitFraction(body[n..]);
    if n == 0 && fraction.frac == "" then None
    else
      match SplitExponent(fraction.tail)
      case None => None
      case Some(exp) =>
        Rejoin(body, n);
        Some(Literal(sign, body[..n], fraction.dot, fraction.frac, exp))
  }

  /** A match of the whole expression, with its groups. */
  function Split(s: string): Option<Literal> {
    SplitUnsigned(s[..LeadingSign(s)], s[LeadingSign(s)..])
  }

  /** A match is a well-formed literal that spells the input. */
  lemma SplitSound(s: string)
    requires Split(s).Some?
    ensures WellFormed(Split(s).value) && Render(Split(s).value) == s
  {
    Rejoin(s, LeadingSign(s));
  }

  lemma {:induction false} LeadingDigitsOfAppend(a: string, b: string)
    requires AllDigits(a)
    requires b != "" ==> !IsDigit(b[0])
    ensures LeadingDigits(a + b) == |a|
  {
    if a == "" {
      assert a + b == b;
    } else {
      LeadingDigitsOfAppend(a[1..], b);
      assert (a + b)[1..] == a[1..] + b;
    }
  }

  lemma LeadingSignOfAppend(a: string, b: string)
    requires IsSign(a)
    requires b != "" && b[0] != '+' && b[0] != '-'
    ensures LeadingSign(a + b) == |a|
  {
    assert a == "" ==> a + b == b;
  }

  lemma SplitExponentComplete(exp: Option<Exponent>)
    requires exp.Some? ==>
               && IsMarker(exp.value.marker) && IsSign(exp.value.sign)
               && AllDigits(exp.value.digits) && exp.value.digits != ""
    ensures SplitExponent(RenderExponent(exp)) == Some(exp)
  {
    if exp.Some? {
      var e := exp.value;
      var s := RenderExponent(exp);
      assert s[1..] == e.sign + e.digits;
      LeadingSignOfAppend(e.sign, e.digits);
      assert s[1..][|e.sign|..] == e.digits;
      assert s[1..][..|e.sign|] == e.sign;
    }
  }

  lemma SplitFractionComplete(dot: bool, frac: string, tail: string)
    requires AllDigits(frac) && (!dot ==> frac == "")
    requires tail != "" ==> !IsDigit(tail[0]) && tail[0] != '.'
    ensures SplitFraction(RenderFraction(dot, frac) + tail) == FractionMatch(dot, frac, tail)
  {
    var s := RenderFraction(dot, frac) + tail;
    if dot {
      assert s[1..] == frac + tail;
      LeadingDigitsOfAppend(frac, tail);
    } else {
      assert s == tail;
    }
  }

  lemma SplitUnsignedComplete(lit: Literal, rest: string)
    requires WellFormed(lit) && rest == RenderFraction(lit.dot, lit.frac) + RenderExponent(lit.exp)
    ensures SplitUnsigned(lit.sign, lit.intPart + rest) == Some(lit)
  {
    var body := lit.intPart + rest;
    LeadingDigitsOfAppend(lit.intPart, rest);
    assert body[|lit.intPart|..] == rest && body[..|lit.intPart|] == lit.intPart;
    SplitFractionComplete(lit.dot, lit.frac, RenderExponent(lit.exp));
    SplitExponentComplete(lit.exp);
    hide LeadingDigits, SplitFraction, SplitExponent, RenderFraction, RenderExponent;
  }

  /** Every well-formed literal matches, and only with its own groups. */
  lemma SplitComplete(lit: Literal)
    requires WellFormed(lit)
    ensures Split(Render(lit)) == Some(lit)
  {
    var rest := RenderFraction(lit.dot, lit.frac) + RenderExponent(lit.exp);
    var body := lit.intPart + rest;
    var s := Render(lit);
    assert s == lit.sign + body;
    LeadingSignOfAppend(lit.sign, body);
    assert s[|lit.sign|..] == body && s[..|lit.sign|] == lit.sign;
    SplitUnsignedComplete(lit, rest);
    hide SplitUnsigned, LeadingSign, Render, RenderFraction, RenderExponent;
  }

  // ---------------------------------------------------------------------------
  // Trimming
  // ---------------------------------------------------------------------------

  /** The white space and line terminators that String.prototype.trim removes. */
  predicate IsSpace(c: char) {
    var u := c as int;
    || 0x9 <= u <= 0xD || u == 0x20 || u == 0xA0 || u == 0x1680 || 0x2000 <= u <= 0x200A
    || u == 0x2028 || u == 0x2029 || u == 0x202F || u == 0x205F || u == 0x3000 || u == 0xFEFF
  }

  function TrimStart(s: string): string {
    if s != "" && IsSpace(s[0]) then TrimStart(s[1..]) else s
  }

  function TrimEnd(s: string): string {
    if s != "" && IsSpace(s[|s| - 1]) then TrimEnd(s[..|s| - 1]) else s
  }

  function Trim(s: string): string {
    TrimEnd(TrimStart(s))
  }

  /** Trimming takes white space, and nothing else, off both ends until none is left there. */
  lemma TrimIs(s: string) returns (lead: string, trail: string)
    ensures s == lead + Trim(s) + trail && NoneBut(lead) && NoneBut(trail)
    ensures Trim(s) != "" ==> !IsSpace(Trim(s)[0]) && !IsSpace(Trim(s)[|Trim(s)| - 1])
  {
    lead := TrimmedStart(s);
    trail := TrimmedEnd(TrimStart(s));
    assert s == lead + (Trim(s) + trail) == lead + Trim(s) + trail;
    if Trim(s) != "" {
      assert TrimStart(s)[0] == Trim(s)[0];
    }
  }

  /** White space alone. */
  predicate NoneBut(s: string) {
    forall i :: 0 <= i < |s| ==> IsSpace(s[i])
  }

  lemma {:induction false} TrimmedStart(s: string) returns (lead: string)
    ensures s == lead + TrimStart(s) && NoneBut(lead)
    ensures TrimStart(s) != "" ==> !IsSpace(TrimStart(s)[0])
  {
    if s != "" && IsSpace(s[0]) {
      lead := TrimmedStart(s[1..]);
      lead := [s[0]] + lead;
    } else {
      lead := "";
    }
  }

  lemma {:induction false} TrimmedEnd(s: string) returns (trail: string)
    ensures s == TrimEnd(s) + trail && NoneBut(trail)
    ensures TrimEnd(s) != "" ==> !IsSpace(TrimEnd(s)[|TrimEnd(s)| - 1])
  {
    if s != "" && IsSpace(s[|s| - 1]) {
      trail := TrimmedEnd(s[..|s| - 1]);
      trail := trail + [s[|s| - 1]];
    } else {
      trail := "";
    }
  }

  predicate NoSpace(s: string) {
    forall i :: 0 <= i < |s| ==> !IsSpace(s[i])
  }

  lemma RenderHasNoSpace(lit: Literal)
    requires WellFormed(lit)
    ensures NoSpace(Render(lit)) && Trim(Render(lit)) == Render(lit)
  {
    assert NoSpace(lit.sign) && NoSpace(lit.intPart) && NoSpace(RenderFraction(lit.dot, lit.frac));
    assert NoSpace(RenderExponent(lit.exp));
  }

  // ---------------------------------------------------------------------------
  // What a numeral is worth
  // ---------------------------------------------------------------------------

  /** The power of ten that the exponent and the position of the point come to. */
  function Places(lit: Literal): int
    requires WellFormed(lit)
  {
    ExponentValue(lit.exp) - |lit.frac|
  }

  /** The magnitude a literal denotes is the fraction Numerator / Denominator. */
  function Numerator(lit: Literal): nat
    requires WellFormed(lit)
  {
    var digits := Value(lit.intPart + lit.frac);
    if Places(lit) >= 0 then digits * Pow10(Places(lit)) else digits
  }

  function Denominator(lit: Literal): (d: nat)
    requires WellFormed(lit)
    ensures d > 0
  {
    if Places(lit) >= 0 then 1 else Pow10(-Places(lit))
  }

  /** floor(magnitude * 10^18). */
  function ScaledFloor(lit: Literal): int
    requires WellFormed(lit)
  {
    Numerator(lit) * SCALE_FACTOR / Denominator(lit)
  }

  /** The scaled integer that `parse` computes for a literal, sign aside. */
  function ParsedMagnitude(lit: Literal): nat
    requires WellFormed(lit)
  {
    var e := Places(lit) + SCALE_DIGITS;
    Shift(Value(lit.intPart + lit.frac), if lit.intPart == "" then e - 1 else e)
  }

  function Signed(lit: Literal, magnitude: int): int {
    if lit.sign == "-" then -magnitude else magnitude
  }

  /** What `parse` returns. */
  function Parsed(text: string): Result<Decimal, DecimalError> {
    match Split(Trim(text))
    case None => Err(InvalidText(text))
    case Some(lit) =>
      SplitSound(Trim(text));
      Ok(Decimal(Signed(lit, ParsedMagnitude(lit))))
  }

  /** The floor of the scaled value, computed by shifting. */
  lemma ScaledFloorIsShift(lit: Literal)
    requires WellFormed(lit)
    ensures ScaledFloor(lit) == Shift(Value(lit.intPart + lit.frac), Places(lit) + SCALE_DIGITS)
  {
    ScaleFactorIsPow10();
    var n := Value(lit.intPart + lit.frac);
    if Places(lit) >= 0 {
      ShiftLeft(n, Places(lit) + SCALE_DIGITS);
      Pow10Add(Places(lit), SCALE_DIGITS);
      MulAssoc(n, Pow10(Places(lit)), SCALE_FACTOR);
    } else {
      ShiftScaled(n, SCALE_DIGITS, -Places(lit));
    }
  }

  lemma ParsedOfRender(lit: Literal)
    requires WellFormed(lit)
    ensures Parsed(Render(lit)) == Ok(Decimal(Signed(lit, ParsedMagnitude(lit))))
  {
    RenderHasNoSpace(lit);
    SplitComplete(lit);
  }

  lemma ParsedMagnitudeIsFloor(lit: Literal)
    requires WellFormed(lit)
    ensures ParsedMagnitude(lit) == if lit.intPart != "" then ScaledFloor(lit) else ScaledFloor(lit) / 10
  {
    ScaledFloorIsShift(lit);
    ShiftStep(Value(lit.intPart + lit.frac), Places(lit) + SCALE_DIGITS);
  }

  /**
   The value theorem: a literal with an integer digit parses to its sign times
   floor(|value| * 10^18), whatever its fraction length and exponent.
   */
  lemma ParseIsFloor(lit: Literal)
    requires WellFormed(lit) && lit.intPart != ""
    ensures Parsed(Render(lit)) == Ok(Decimal(Signed(lit, ScaledFloor(lit))))
  {
    ParsedOfRender(lit);
    ParsedMagnitudeIsFloor(lit);
  }

  /** Without an integer digit the point ends up one place too far left: a tenth is parsed. */
  lemma ParseWithoutIntegerDigit(lit: Literal)
    requires WellFormed(lit) && lit.intPart == ""
    ensures Parsed(Render(lit)) == Ok(Decimal(Signed(lit, ScaledFloor(lit) / 10)))
  {
    ParsedOfRender(lit);
    ParsedMagnitudeIsFloor(lit);
  }

  /** So the value theorem holds exactly for literals with an integer digit, or below 10^-18. */
  lemma ParseIsFloorIff(lit: Literal)
    requires WellFormed(lit)
    ensures Parsed(Render(lit)) == Ok(Decimal(Signed(lit, ScaledFloor(lit)))) <==>
            lit.intPart != "" || ScaledFloor(lit) == 0
  {
    if lit.intPart != "" {
      ParseIsFloor(lit);
    } else {
      ParseWithoutIntegerDigit(lit);
      ScaledFloorIsShift(lit);
    }
  }

  /**
   The exponent moves the point to the right, or behind a minus sign to the left: of the digits d and
   the exponent digits n, d * 10^(n - places) or d * 10^(-n - places) is taken exactly, scaled by
   10^18, as far as that is a whole number.
   */
  lemma ExponentShifts(lit: Literal, d: nat, n: nat, places: nat)
    requires WellFormed(lit) && lit.intPart != "" && lit.exp.Some?
    requires d == Value(lit.intPart + lit.frac) && n == Value(lit.exp.value.digits) && places == |lit.frac|
    ensures lit.exp.value.sign != "-" && n + SCALE_DIGITS >= places ==>
              ParsedMagnitude(lit) == d * Pow10(n + SCALE_DIGITS - places)
    ensures lit.exp.value.sign == "-" && SCALE_DIGITS >= n + places ==>
              ParsedMagnitude(lit) == d * Pow10(SCALE_DIGITS - n - places)
  {
    var move: int := n;
    assert Places(lit) == (if lit.exp.value.sign == "-" then -move else move) - places;
    hide Shift;
    if lit.exp.value.sign != "-" && n + SCALE_DIGITS >= places {
      ShiftLeft(d, n + SCALE_DIGITS - places);
    }
    if lit.exp.value.sign == "-" && SCALE_DIGITS >= n + places {
      ShiftLeft(d, SCALE_DIGITS - n - places);
    }
    hide Value, Pow10, WellFormed;
  }

  lemma SignedIs(lit: Literal, magnitude: int)
    ensures Signed(lit, magnitude) == if lit.sign == "-" then -magnitude else magnitude
  {
  }

  /** A minus sign negates. */
  lemma MinusNegates(lit: Literal, positive: Literal)
    requires WellFormed(lit) && WellFormed(positive) && lit.sign == "-" && positive == lit.(sign := positive.sign)
    requires positive.sign != "-"
    ensures Parsed(Render(lit)).Ok? && Parsed(Render(positive)).Ok?
    ensures Parsed(Render(lit)).value.scaled == -Parsed(Render(positive)).value.scaled
  {
    SameMagnitude(lit, positive);
    hide *;
    ParsedOfRender(lit);
    ParsedOfRender(positive);
    SignedIs(lit, ParsedMagnitude(lit));
    SignedIs(positive, ParsedMagnitude(positive));
  }

  lemma SameMagnitude(lit: Literal, other: Literal)
    requires WellFormed(lit) && WellFormed(other) && other == lit.(sign := other.sign)
    ensures ParsedMagnitude(lit) == ParsedMagnitude(other)
  {
    hide Shift, Value, WellFormed;
  }

  /** ".5" parses to 0.05, while "0.5" parses to 0.5. */
  lemma PointFiveExample(intPart: string)
    requires intPart == "" || intPart == "0"
    ensures Parsed(intPart + ".5") ==
            Ok(Decimal(if intPart == "" then SCALE_FACTOR / 20 else SCALE_FACTOR / 2))
  {
    var lit := Literal("", intPart, true, "5", None);
    HalfMagnitude(lit);
    ParsedOfRender(lit);
    RenderOfHalf(intPart);
  }

  lemma RenderOfHalf(intPart: string)
    ensures Render(Literal("", intPart, true, "5", None)) == intPart + ".5"
  {
  }

  lemma HalfMagnitude(lit: Literal)
    requires WellFormed(lit)
    requires (lit.intPart == "" || lit.intPart == "0") && lit.frac == "5" && lit.exp == None
    ensures ParsedMagnitude(lit) == if lit.intPart == "" then SCALE_FACTOR / 20 else SCALE_FACTOR / 2
  {
    assert lit.intPart + lit.frac == lit.intPart + ['5'];
    assert lit.intPart == "0" ==> lit.intPart[..0] == "";
    ValueSnoc(lit.intPart, '5');
    assert Places(lit) == -1;
    HalfShifted();
  }

  lemma HalfShifted()
    ensures Shift(5, 16) == SCALE_FACTOR / 20
    ensures Shift(5, 17) == SCALE_FACTOR / 2
  {
    assert Shift(5, 4) == 50_000;
    assert Shift(5, 8) == 500_000_000;
    assert Shift(5, 12) == 5_000_000_000_000;
  }

  /** Text is accepted exactly when, trimmed, it spells a well-formed literal. */
  lemma ParseAcceptsIff(text: string)
    ensures Parsed(text).Ok? <==> exists lit :: WellFormed(lit) && Render(lit) == Trim(text)
    ensures Parsed(text).Err? ==> Parsed(text) == Err(InvalidText(text))
  {
    if Split(Trim(text)).Some? {
      SplitSound(Trim(text));
      assert WellFormed(Split(Trim(text)).value);
    }
    if lit :| WellFormed(lit) && Render(lit) == Trim(text) {
      SplitComplete(lit);
    }
  }

  // ---------------------------------------------------------------------------
  // The parser itself
  // ---------------------------------------------------------------------------

  /** s.search / s.indexOf: the first position whose character satisfies p, or -1. */
  function FirstIndex(s: string, p: char -> bool): (k: int)
    ensures -1 <= k < |s|
  {
    if s == "" then -1
    else if p(s[0]) then 0
    else
      var k := FirstIndex(s[1..], p);
      if k < 0 then -1 else k + 1
  }

  lemma {:induction false} FirstIndexOfAppend(a: string, b: string, p: char -> bool)
    requires forall i :: 0 <= i < |a| ==> !p(a[i])
    requires b != "" ==> p(b[0])
    ensures FirstIndex(a + b, p) == if b == "" then -1 else |a|
  {
    if a == "" {
      assert a + b == b;
    } else {
      FirstIndexOfAppend(a[1..], b, p);
      assert (a + b)[1..] == a[1..] + b;
    }
  }

  /** Number.parseInt of an optional sign and digits. */
  function ParseInt(s: string): int
    requires AllDigits(s[LeadingSign(s)..])
  {
    var v := Value(s[LeadingSign(s)..]);
    if s != "" && s[0] == '-' then -(v as int) else v
  }

  lemma ParseIntOfExponent(e: Exponent)
    requires IsSign(e.sign) && AllDigits(e.digits) && e.digits != ""
    ensures LeadingSign(e.sign + e.digits) == |e.sign|
    ensures (e.sign + e.digits)[|e.sign|..] == e.digits
    ensures ParseInt(e.sign + e.digits) == ExponentValue(Some(e))
  {
    LeadingSignOfAppend(e.sign, e.digits);
    assert (e.sign + e.digits)[|e.sign|..] == e.digits;
  }

  /** Padding, prefixing and slicing so that exactly 18 digits follow the point. */
  method AlignPoint(digits0: string, pointIndex0: int) returns (digits: string)
    requires AllDigits(digits0)
    ensures AllDigits(digits)
    ensures Value(digits) == Shift(Value(digits0), pointIndex0 + SCALE_DIGITS - |digits0|)
  {
    digits := digits0;
    var pointIndex := pointIndex0;
    assert digits0 + Zeros(0) == digits0;
    while |digits| < pointIndex + SCALE_DIGITS
      invariant |digits| >= |digits0|
      invariant |digits| > |digits0| ==> |digits| <= pointIndex + SCALE_DIGITS
      invariant digits == digits0 + Zeros(|digits| - |digits0|)
      decreases pointIndex + SCALE_DIGITS - |digits|
    {
      digits := digits + "0";
    }
    ValuePadded(digits0, |digits| - |digits0|);
    if pointIndex < 0 {
      ValuePrefixed(-pointIndex, digits);
      digits := Zeros(-pointIndex) + digits;
      pointIndex := 0;
    }
    var keep := pointIndex + SCALE_DIGITS;
    if |digits| > keep {
      ValuePrefix(digits, keep);
      digits := digits[..keep];
    }
  }

  /** Splits the exponent off an unsigned numeral. */
  method CutExponent(body: string, ghost lit: Literal) returns (mantissa: string, exponent: int)
    requires WellFormed(lit)
    requires body == lit.intPart + RenderFraction(lit.dot, lit.frac) + RenderExponent(lit.exp)
    ensures mantissa == lit.intPart + RenderFraction(lit.dot, lit.frac)
    ensures exponent == ExponentValue(lit.exp)
  {
    mantissa, exponent := body, 0;
    FirstIndexOfAppend(lit.intPart + RenderFraction(lit.dot, lit.frac), RenderExponent(lit.exp), IsMarker);
    var expIndex := FirstIndex(body, IsMarker);
    if expIndex >= 0 {
      assert body[expIndex + 1..] == lit.exp.value.sign + lit.exp.value.digits;
      ParseIntOfExponent(lit.exp.value);
      exponent := ParseInt(body[expIndex + 1..]);
      mantissa := body[..expIndex];
    }
  }

  /** Splits a mantissa at its point. */
  method CutPoint(mantissa: string, ghost lit: Literal) returns (intPart: string, fracPart: string)
    requires WellFormed(lit)
    requires mantissa == lit.intPart + RenderFraction(lit.dot, lit.frac)
    ensures intPart == lit.intPart && fracPart == lit.frac
  {
    FirstIndexOfAppend(lit.intPart, RenderFraction(lit.dot, lit.frac), c => c == '.');
    var dotIndex := FirstIndex(mantissa, c => c == '.');
    intPart := if dotIndex >= 0 then mantissa[..dotIndex] else mantissa;
    fracPart := if dotIndex >= 0 then mantissa[dotIndex + 1..] else "";
  }

  /** Behind its sign a numeral starts with a digit or a point. */
  lemma BehindTheSign(lit: Literal, rest: string)
    requires WellFormed(lit) && rest == lit.intPart + RenderFraction(lit.dot, lit.frac) + RenderExponent(lit.exp)
    ensures rest != "" && rest[0] != '+' && rest[0] != '-'
    ensures IsSign(lit.sign) && Render(lit) == lit.sign + rest
  {
    FirstBehindTheSign(lit);
    var first, fraction, exponent := lit.intPart, RenderFraction(lit.dot, lit.frac), RenderExponent(lit.exp);
    assert WellFormed(lit) ==> IsSign(lit.sign);
    assert Render(lit) == lit.sign + first + fraction + exponent;
    hide *;
    assert lit.sign + first + fraction + exponent == lit.sign + (first + fraction + exponent);
    assert rest[0] == (first + fraction)[0];
  }

  lemma FirstBehindTheSign(lit: Literal)
    requires WellFormed(lit)
    ensures var first := lit.intPart + RenderFraction(lit.dot, lit.frac);
            first != "" && first[0] != '+' && first[0] != '-'
  {
    if lit.intPart == "" {
      assert RenderFraction(lit.dot, lit.frac)[0] == '.';
    } else {
      assert (lit.intPart + RenderFraction(lit.dot, lit.frac))[0] == lit.intPart[0];
    }
    hide RenderExponent;
  }

  /** Takes the sign off a numeral. */
  method CutSign(trimmed: string, ghost lit: Literal) returns (negative: bool, body: string)
    requires WellFormed(lit) && trimmed == Render(lit)
    ensures negative <==> lit.sign == "-"
    ensures body == lit.intPart + RenderFraction(lit.dot, lit.frac) + RenderExponent(lit.exp)
  {
    negative, body := false, trimmed;
    ghost var rest := lit.intPart + RenderFraction(lit.dot, lit.frac) + RenderExponent(lit.exp);
    BehindTheSign(lit, rest);
    hide WellFormed, Render, RenderFraction, RenderExponent;
    assert lit.sign != "" ==> trimmed[0] == lit.sign[0] && trimmed[1..] == rest;
    if body[0] == '+' {
      body := body[1..];
    } else if body[0] == '-' {
      negative := true;
      body := body[1..];
    }
  }

  /** The regular expression test, with the groups of the match. */
  method Match(text: string) returns (m: Option<Literal>)
    ensures m.None? ==> Parsed(text) == Err(InvalidText(text))
    ensures m.Some? ==>
              && WellFormed(m.value) && Render(m.value) == Trim(text)
              && Parsed(text) == Ok(Decimal(Signed(m.value, ParsedMagnitude(m.value))))
  {
    m := Split(Trim(text));
    if m.Some? {
      SplitSound(Trim(text));
    }
  }

  method Parse(text: string) returns (r: Result<Decimal, DecimalError>)
    ensures r == Parsed(text)
  {
    var lit := Match(text);
    if lit.None? {
      return Err(InvalidText(text));
    }
    var d := ParseNumeral(Trim(text), lit.value);
    r := Ok(d);
  }

  /** The parser behind the regular expression test. */
  method ParseNumeral(trimmed: string, ghost lit: Literal) returns (d: Decimal)
    requires WellFormed(lit) && trimmed == Render(lit)
    ensures d == Decimal(Signed(lit, ParsedMagnitude(lit)))
  {
    var negative, body := CutSign(trimmed, lit);
    var mantissa, exponent := CutExponent(body, lit);
    var intPart, fracPart := CutPoint(mantissa, lit);
    var magnitude := ScaleDigits(intPart, fracPart, exponent, lit);
    d := Decimal(if negative then -(magnitude as int) else magnitude);
  }

  /** Joins the digits, moves the point by the exponent and reads off the scaled magnitude. */
  method ScaleDigits(intPart: string, fracPart: string, exponent: int, ghost lit: Literal)
    returns (magnitude: nat)
    requires WellFormed(lit)
    requires intPart == lit.intPart && fracPart == lit.frac && exponent == ExponentValue(lit.exp)
    ensures magnitude == ParsedMagnitude(lit)
  {
    var digits := (if intPart == "" then "0" else intPart) + fracPart;
    var pointIndex := |intPart| + exponent;
    AlignedDigits(lit, digits, pointIndex);
    var aligned := AlignPoint(digits, pointIndex);
    magnitude := if aligned == "" then 0 else Value(aligned);
  }

  /** The digits and point index handed to `AlignPoint` amount to the parsed magnitude. */
  lemma AlignedDigits(lit: Literal, digits: string, pointIndex: int)
    requires WellFormed(lit)
    requires digits == (if lit.intPart == "" then "0" else lit.intPart) + lit.frac
    requires pointIndex == |lit.intPart| + ExponentValue(lit.exp)
    ensures AllDigits(digits)
    ensures Shift(Value(digits), pointIndex + SCALE_DIGITS - |digits|) == ParsedMagnitude(lit)
  {
    if lit.intPart == "" {
      ValuePrefixed(1, lit.frac);
      assert digits == Zeros(1) + lit.frac;
      assert lit.intPart + lit.frac == lit.frac;
    }
    assert pointIndex + SCALE_DIGITS - |digits| ==
           if lit.intPart == "" then Places(lit) + SCALE_DIGITS - 1 else Places(lit) + SCALE_DIGITS;
  }
}
