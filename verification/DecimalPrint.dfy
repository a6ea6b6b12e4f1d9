/**
 Printing decimals (src/core/decimal.ts: `toString`, `toFixed`) and the round trips through
 the parser.
 */
module DecimalPrint {
  import opened DecimalText
  import opened Digits
  import opened FixedPoint
  import opened Truncation
  import opened Wrappers

  /** s without its trailing '0' characters. */
  function TrimZeros(s: string): string {
    if s != "" && s[|s| - 1] == '0' then TrimZeros(s[..|s| - 1]) else s
  }

  lemma {:induction false} TrimZerosSplits(s: string)
    ensures |TrimZeros(s)| <= |s|
    ensures s == TrimZeros(s) + Zeros(|s| - |TrimZeros(s)|)
    ensures TrimZeros(s) != "" ==> TrimZeros(s)[|TrimZeros(s)| - 1] != '0'
  {
    if s != "" && s[|s| - 1] == '0' {
      TrimZerosSplits(s[..|s| - 1]);
    }
  }

  /** The digits of n, padded so that at least one precedes the 18 fraction digits. */
  function PaddedDigits(n: nat): string {
    PadStart(DigitsOf(n), SCALE_DIGITS + 1)
  }

  function IntegerDigits(n: nat): string {
    PaddedDigits(n)[..|PaddedDigits(n)| - SCALE_DIGITS]
  }

  function FractionDigits(n: nat): string {
    PaddedDigits(n)[|PaddedDigits(n)| - SCALE_DIGITS..]
  }

  lemma PaddedDigitsValue(n: nat)
    ensures AllDigits(PaddedDigits(n)) && Value(PaddedDigits(n)) == n
    ensures IntegerDigits(n) + FractionDigits(n) == PaddedDigits(n)
    ensures |IntegerDigits(n)| >= 1 && |FractionDigits(n)| == SCALE_DIGITS
    ensures AllDigits(IntegerDigits(n)) && AllDigits(FractionDigits(n))
  {
    var s := DigitsOf(n);
    ValueOfDigits(n);
    if |s| < SCALE_DIGITS + 1 {
      ValuePrefixed(SCALE_DIGITS + 1 - |s|, s);
    }
  }

  /** The numeral with the integer digits of n and the given fraction digits. */
  function NumeralOf(negative: bool, n: nat, frac: string): Literal {
    Literal(if negative then "-" else "", IntegerDigits(n), frac != "", frac, None)
  }

  /** What `toString` prints. */
  function Text(d: Decimal): string {
    Render(NumeralOf(d.scaled < 0, Abs(d.scaled), TrimZeros(FractionDigits(Abs(d.scaled)))))
  }

  /** The fraction digits `toFixed(dp)` prints for the magnitude n. */
  function FixedFraction(n: nat, dp: nat): string {
    if dp == 0 then ""
    else PadEnd(if dp < SCALE_DIGITS then FractionDigits(n)[..dp] else FractionDigits(n), dp)
  }

  /** What `toFixed` prints. */
  function FixedText(d: Decimal, dp: int): Result<string, DecimalError> {
    match Round(d, dp)
    case Err(e) => Err(e)
    case Ok(r) => Ok(Render(NumeralOf(r.scaled < 0, Abs(r.scaled), FixedFraction(Abs(r.scaled), dp))))
  }

  // ---------------------------------------------------------------------------
  // Round trips
  // ---------------------------------------------------------------------------

  /** A numeral whose digits, moved to 18 places, spell n parses back to the signed n. */
  lemma NumeralRoundTrip(negative: bool, n: nat, frac: string)
    requires AllDigits(frac)
    requires AllDigits(IntegerDigits(n) + frac)
    requires Shift(Value(IntegerDigits(n) + frac), SCALE_DIGITS - |frac|) == n
    ensures Parsed(Render(NumeralOf(negative, n, frac))) == Ok(Decimal(if negative then -(n as int) else n))
  {
    var lit := NumeralOf(negative, n, frac);
    NumeralWellFormed(negative, n, frac);
    assert ParsedMagnitude(lit) == n by {
      assert Places(lit) + SCALE_DIGITS == SCALE_DIGITS - |frac|;
    }
    ParsedOfRender(lit);
  }

  lemma NumeralWellFormed(negative: bool, n: nat, frac: string)
    requires AllDigits(frac)
    ensures WellFormed(NumeralOf(negative, n, frac)) && IntegerDigits(n) != ""
    ensures Places(NumeralOf(negative, n, frac)) == -|frac|
  {
    PaddedDigitsValue(n);
  }

  /** The leading places of n, down to the dp-th fraction digit. */
  lemma PrefixOfPadded(n: nat, dp: nat)
    requires dp <= SCALE_DIGITS
    ensures |FractionDigits(n)| == SCALE_DIGITS
    ensures AllDigits(FractionDigits(n)[..dp]) && AllDigits(IntegerDigits(n) + FractionDigits(n)[..dp])
    ensures Value(IntegerDigits(n) + FractionDigits(n)[..dp]) == Shift(n, dp - SCALE_DIGITS)
  {
    PaddedDigitsValue(n);
    var digits := PaddedDigits(n);
    var k := |IntegerDigits(n)| + dp;
    assert digits[..k] == IntegerDigits(n) + FractionDigits(n)[..dp];
    ValuePrefix(digits, k);
  }

  /** Parsing what `toString` prints gives back the same decimal. */
  lemma ToStringRoundTrip(d: Decimal)
    ensures Parsed(Text(d)) == Ok(d)
  {
    var n := Abs(d.scaled);
    var frac := TrimZeros(FractionDigits(n));
    TrimmedFraction(n, frac);
    NumeralRoundTrip(d.scaled < 0, n, frac);
  }

  /** Dropping the trailing zeros keeps the value. */
  lemma TrimmedFraction(n: nat, frac: string)
    requires frac == TrimZeros(FractionDigits(n))
    ensures AllDigits(frac) && AllDigits(IntegerDigits(n) + frac)
    ensures Shift(Value(IntegerDigits(n) + frac), SCALE_DIGITS - |frac|) == n
  {
    PaddedDigitsValue(n);
    TrimZerosSplits(FractionDigits(n));
    TrimmedDigits(IntegerDigits(n), FractionDigits(n), frac);
  }

  lemma TrimmedDigits(intPart: string, full: string, frac: string)
    requires AllDigits(intPart) && AllDigits(full) && AllDigits(intPart + full)
    requires |frac| <= |full| && full == frac + Zeros(|full| - |frac|)
    ensures AllDigits(frac) && AllDigits(intPart + frac)
    ensures Shift(Value(intPart + frac), |full| - |frac|) == Value(intPart + full)
  {
    assert frac == full[..|frac|];
    ValuePadded(intPart + frac, |full| - |frac|);
    assert intPart + full == (intPart + frac) + Zeros(|full| - |frac|);
  }

  /** So different decimals print differently. */
  lemma ToStringInjective(a: Decimal, b: Decimal)
    requires Text(a) == Text(b)
    ensures a == b
  {
    ToStringRoundTrip(a);
    ToStringRoundTrip(b);
  }

  /** The magnitude of a half-even rounding is some natural number moved up to its place. */
  lemma RoundedMagnitude(d: Decimal, dp: nat) returns (m: nat)
    requires dp <= SCALE_DIGITS
    ensures Round(d, dp).Ok? && Abs(Round(d, dp).value.scaled) == Shift(m, SCALE_DIGITS - dp)
  {
    if dp == SCALE_DIGITS {
      m := Abs(d.scaled);
    } else {
      UnitIsEven(dp);
      RoundToUnitIsHalfEven(d.scaled, Unit(dp));
      var q := RoundedQuotient(d.scaled, Unit(dp));
      m := Abs(q);
      AbsProduct(q, Unit(dp));
      ShiftLeft(m, SCALE_DIGITS - dp);
    }
  }

  lemma AbsProduct(q: int, u: nat)
    ensures Abs(q * u) == Abs(q) * u
  {
    MulSigns(q, u);
  }

  /** The digits `toFixed` keeps of a magnitude with nothing behind them spell it out. */
  lemma FixedFractionShort(n: nat, dp: nat, m: nat)
    requires dp <= SCALE_DIGITS && n == Shift(m, SCALE_DIGITS - dp)
    ensures AllDigits(FixedFraction(n, dp)) && |FixedFraction(n, dp)| == dp
    ensures AllDigits(IntegerDigits(n) + FixedFraction(n, dp))
    ensures Shift(Value(IntegerDigits(n) + FixedFraction(n, dp)), SCALE_DIGITS - dp) == n
  {
    PrefixOfPadded(n, dp);
    assert FractionDigits(n)[..SCALE_DIGITS] == FractionDigits(n);
    assert FixedFraction(n, dp) == FractionDigits(n)[..dp];
    ShiftBack(m, SCALE_DIGITS - dp);
  }

  /** Beyond 18 places `toFixed` only adds zeros. */
  lemma FixedFractionLong(n: nat, dp: nat)
    requires dp > SCALE_DIGITS
    ensures AllDigits(FixedFraction(n, dp)) && |FixedFraction(n, dp)| == dp
    ensures AllDigits(IntegerDigits(n) + FixedFraction(n, dp))
    ensures Shift(Value(IntegerDigits(n) + FixedFraction(n, dp)), SCALE_DIGITS - dp) == n
  {
    PaddedDigitsValue(n);
    var k := dp - SCALE_DIGITS;
    assert FixedFraction(n, dp) == FractionDigits(n) + Zeros(k);
    assert IntegerDigits(n) + FixedFraction(n, dp) == PaddedDigits(n) + Zeros(k);
    ValuePadded(PaddedDigits(n), k);
    ShiftBack(n, k);
  }

  lemma FixedFractionOfRounded(d: Decimal, dp: nat)
    ensures Round(d, dp).Ok?
    ensures var n := Abs(Round(d, dp).value.scaled); var frac := FixedFraction(n, dp);
            AllDigits(frac) && |frac| == dp && AllDigits(IntegerDigits(n) + frac)
            && Shift(Value(IntegerDigits(n) + frac), SCALE_DIGITS - dp) == n
  {
    if dp <= SCALE_DIGITS {
      var m := RoundedMagnitude(d, dp);
      FixedFractionShort(Abs(Round(d, dp).value.scaled), dp, m);
    } else {
      FixedFractionLong(Abs(Round(d, dp).value.scaled), dp);
    }
  }

  /** Parsing what `toFixed(dp)` prints gives `round(dp)`, for every dp >= 0. */
  lemma ToFixedRoundTrip(d: Decimal, dp: int)
    ensures dp < 0 ==> FixedText(d, dp) == Err(NegativePlaces)
    ensures dp >= 0 ==> FixedText(d, dp).Ok? && Parsed(FixedText(d, dp).value) == Round(d, dp)
  {
    if dp >= 0 {
      FixedFractionOfRounded(d, dp);
      var r := Round(d, dp).value;
      NumeralRoundTrip(r.scaled < 0, Abs(r.scaled), FixedFraction(Abs(r.scaled), dp));
    }
  }

  /** `toFixed(dp)` prints exactly dp fraction digits, and a point exactly when dp > 0. */
  lemma ToFixedShape(d: Decimal, dp: nat)
    ensures FixedText(d, dp).Ok?
    ensures exists lit ::
              && WellFormed(lit) && Render(lit) == FixedText(d, dp).value
              && |lit.frac| == dp && (lit.dot <==> dp > 0) && lit.intPart != "" && lit.exp == None
              && (lit.sign == "-" <==> Round(d, dp).value.scaled < 0)
  {
    FixedFractionOfRounded(d, dp);
    var r := Round(d, dp).value;
    PaddedDigitsValue(Abs(r.scaled));
    assert WellFormed(NumeralOf(r.scaled < 0, Abs(r.scaled), FixedFraction(Abs(r.scaled), dp)));
  }

  // ---------------------------------------------------------------------------
  // Canonical form
  // ---------------------------------------------------------------------------

  /** No plus sign, no exponent, no superfluous zero on either side, and no negative zero. */
  predicate Canonical(lit: Literal) {
    && WellFormed(lit)
    && lit.sign != "+" && lit.exp == None && (lit.dot <==> lit.frac != "")
    && lit.intPart != "" && (lit.intPart[0] == '0' ==> lit.intPart == "0")
    && |lit.frac| <= SCALE_DIGITS && (lit.frac != "" ==> lit.frac[|lit.frac| - 1] != '0')
    && !(lit.sign == "-" && lit.intPart == "0" && lit.frac == "")
  }

  lemma IntegerDigitsCanonical(n: nat)
    ensures |IntegerDigits(n)| >= 1
    ensures IntegerDigits(n)[0] == '0' ==> IntegerDigits(n) == "0"
  {
    DigitsOfNoLeadingZero(n);
    if |DigitsOf(n)| <= SCALE_DIGITS {
      assert IntegerDigits(n) == "0";
    }
  }

  /** A magnitude whose printed digits are all zero is zero. */
  lemma ZeroDigits(n: nat)
    requires IntegerDigits(n) == "0" && TrimZeros(FractionDigits(n)) == ""
    ensures n == 0
  {
    PaddedDigitsValue(n);
    TrimZerosSplits(FractionDigits(n));
    assert PaddedDigits(n) == Zeros(SCALE_DIGITS + 1) + "";
    ValuePrefixed(SCALE_DIGITS + 1, "");
  }

  /** `toString` prints canonical numerals only. */
  lemma ToStringCanonical(d: Decimal)
    ensures exists lit :: Canonical(lit) && Render(lit) == Text(d)
  {
    var n := Abs(d.scaled);
    var frac := TrimZeros(FractionDigits(n));
    var lit := NumeralOf(d.scaled < 0, n, frac);
    TrimmedFraction(n, frac);
    NumeralWellFormed(d.scaled < 0, n, frac);
    TrimZerosSplits(FractionDigits(n));
    PaddedDigitsValue(n);
    IntegerDigitsCanonical(n);
    if lit.intPart == "0" && lit.frac == "" {
      ZeroDigits(n);
    }
    assert Canonical(lit);
  }

  lemma CanonicalIsNotNegativeZero(lit: Literal)
    requires Canonical(lit)
    ensures Render(lit) != "-0"
  {
    var fraction := RenderFraction(lit.dot, lit.frac);
    var rest := lit.intPart + (fraction + RenderExponent(lit.exp));
    assert rest == lit.intPart + fraction;
    if lit.sign == "" {
      assert Render(lit)[0] == lit.intPart[0];
    } else if |rest| == 1 {
      assert Render(lit)[1] == lit.intPart[0];
      assert |lit.intPart| == 1;
    } else {
      assert |Render(lit)| != 2;
    }
  }

  /** It never prints "-0". */
  lemma ToStringNeverNegativeZero(d: Decimal)
    ensures Text(d) != "-0"
  {
    ToStringCanonical(d);
    hide Text, Canonical, Render;
    var lit :| Canonical(lit) && Render(lit) == Text(d);
    CanonicalIsNotNegativeZero(lit);
  }

  // ---------------------------------------------------------------------------
  // The printers themselves
  // ---------------------------------------------------------------------------

  /** Assembles sign, integer part and fraction, the point only where there is a fraction. */
  function Assemble(negative: bool, intPart: string, fracPart: string): string {
    var body := if fracPart != "" then intPart + "." + fracPart else intPart;
    if negative then "-" + body else body
  }

  lemma AssembleIsRender(negative: bool, n: nat, frac: string)
    ensures Assemble(negative, IntegerDigits(n), frac) == Render(NumeralOf(negative, n, frac))
  {
    var intPart := IntegerDigits(n);
    assert intPart + ("" + "") == intPart;
    assert intPart + "." + frac == intPart + ("." + frac + "");
  }

  /** The linear scan for the end of the significant fraction digits. */
  method ScanFraction(fracPart: string) returns (fracEnd: nat)
    ensures fracEnd <= |fracPart| && fracPart[..fracEnd] == TrimZeros(fracPart)
  {
    fracEnd := |fracPart|;
    assert fracPart[..fracEnd] == fracPart;
    while fracEnd > 0 && fracPart[fracEnd - 1] == '0'
      invariant 0 <= fracEnd <= |fracPart|
      invariant TrimZeros(fracPart[..fracEnd]) == TrimZeros(fracPart)
    {
      assert fracPart[..fracEnd][..fracEnd - 1] == fracPart[..fracEnd - 1];
      fracEnd := fracEnd - 1;
    }
  }

  /** Pads the digits of a magnitude and cuts them 18 places from the end. */
  method SplitDigits(magnitude: nat) returns (intPart: string, fracPart: string)
    ensures intPart == IntegerDigits(magnitude) && fracPart == FractionDigits(magnitude)
  {
    var digits := PaddedDigits(magnitude);
    intPart := digits[..|digits| - SCALE_DIGITS];
    fracPart := digits[|digits| - SCALE_DIGITS..];
  }

  method ToString(d: Decimal) returns (text: string)
    ensures text == Text(d)
  {
    var negative := d.scaled < 0;
    var magnitude := if negative then -d.scaled else d.scaled;
    var intPart, fracPart := SplitDigits(magnitude);
    var fracEnd := ScanFraction(fracPart);
    fracPart := fracPart[..fracEnd];
    AssembleIsRender(negative, magnitude, fracPart);
    text := Assemble(negative, intPart, fracPart);
  }

  method ToFixed(d: Decimal, dp: int) returns (r: Result<string, DecimalError>)
    ensures r == FixedText(d, dp)
  {
    var rounded := Round(d, dp);
    if rounded.Err? {
      return Err(rounded.error);
    }
    var negative := rounded.value.scaled < 0;
    var magnitude := if negative then -rounded.value.scaled else rounded.value.scaled;
    var intPart, fracPart := SplitDigits(magnitude);
    if dp == 0 {
      fracPart := "";
    } else {
      fracPart := PadEnd(if dp < |fracPart| then fracPart[..dp] else fracPart, dp);
    }
    AssembleIsRender(negative, magnitude, fracPart);
    r := Ok(Assemble(negative, intPart, fracPart));
  }
}
