/**
 Fixed-point decimals with 18 fraction digits (src/core/decimal.ts).

 The operations are written as the code writes them, on truncating BigInt operators. What
 they mean is stated by two relations, `NearestTiesToZero` and `HalfEven`, which never
 mention a truncated quotient and pin their result down uniquely.
 */
module FixedPoint {
  import opened Truncation
  import opened Wrappers

  const SCALE_DIGITS: nat := 18
  const SCALE_FACTOR: nat := 1_000_000_000_000_000_000

  datatype Decimal = Decimal(scaled: int)

  datatype DecimalError = DivisionByZero | NegativePlaces | InvalidText(text: string)

  const ZERO := Decimal(0)

  lemma ScaleFactorIsPow10()
    ensures Pow10(SCALE_DIGITS) == SCALE_FACTOR
  {
    assert Pow10(6) == 1_000_000;
    Pow10Add(6, 6);
    Pow10Add(12, 6);
  }

  function Add(a: Decimal, b: Decimal): Decimal {
    Decimal(a.scaled + b.scaled)
  }

  function Mul(a: Decimal, b: Decimal): Decimal {
    Decimal(TruncDiv(a.scaled * b.scaled, SCALE_FACTOR))
  }

  /** The quotient step of `div`: truncate, then step away from zero past the midpoint. */
  function DivRounded(n: int, d: int): int
    requires d != 0
  {
    var correction := if (n < 0) != (d < 0) then -1 else 1;
    if Abs(TruncMod(n, d)) * 2 > Abs(d) then TruncDiv(n, d) + correction else TruncDiv(n, d)
  }

  function Div(a: Decimal, b: Decimal): Result<Decimal, DecimalError> {
    if b.scaled == 0 then Err(DivisionByZero)
    else Ok(Decimal(DivRounded(a.scaled * SCALE_FACTOR, b.scaled)))
  }

  /** The rounding step of `round`, to a multiple of an even unit. */
  function RoundToUnit(x: int, unit: int): int
    requires unit > 0
  {
    var quotient := TruncDiv(x, unit);
    var half := unit / 2;
    var absRemainder := Abs(TruncMod(x, unit));
    if absRemainder * 2 > half * 2 || (absRemainder * 2 == half * 2 && TruncMod(quotient, 2) != 0) then
      (quotient + (if x < 0 then -1 else 1)) * unit
    else
      quotient * unit
  }

  /** One unit in the last of `dp` decimal places, as a scaled integer. */
  function Unit(dp: nat): (u: nat)
    ensures u > 0
  {
    if dp >= SCALE_DIGITS then 1 else Pow10(SCALE_DIGITS - dp)
  }

  function Round(d: Decimal, dp: int): Result<Decimal, DecimalError> {
    if dp >= SCALE_DIGITS then Ok(d)
    else if dp < 0 then Err(NegativePlaces)
    else Ok(Decimal(RoundToUnit(d.scaled, Unit(dp))))
  }

  // ---------------------------------------------------------------------------
  // What division means
  // ---------------------------------------------------------------------------

  /** `q` is an integer nearest to n/d; of two equally near ones, the smaller in magnitude. */
  ghost predicate NearestTiesToZero(n: int, d: int, q: int)
  {
    && 2 * Abs(n - q * d) <= Abs(d)
    && (2 * Abs(n - q * d) == Abs(d) ==> Abs(q * d) < Abs(n))
  }

  /** `q` is an integer nearest to n/d; of two equally near ones, the even one. */
  ghost predicate NearestTiesToEven(n: int, d: int, q: int)
  {
    && 2 * Abs(n - q * d) <= Abs(d)
    && (2 * Abs(n - q * d) == Abs(d) ==> q % 2 == 0)
  }

  /** q is the quotient n/d, d > 0, with the fraction dropped. */
  ghost predicate TowardZero(n: int, d: int, q: int) {
    if n >= 0 then q * d <= n < q * d + d else q * d - d < n <= q * d
  }

  lemma TowardZeroUnique(n: int, d: int, p: int, q: int)
    requires d > 0 && TowardZero(n, d, p) && TowardZero(n, d, q)
    ensures p == q
  {
    if n >= 0 {
      QuotientUnique(n, d, p);
      QuotientUnique(n, d, q);
    } else {
      assert (-p) * d == -(p * d) && (-q) * d == -(q * d);
      QuotientUnique(-n, d, -p);
      QuotientUnique(-n, d, -q);
    }
  }

  lemma TruncDivTowardZero(n: int, d: int)
    requires d > 0
    ensures TowardZero(n, d, TruncDiv(n, d))
  {
    TruncDivMod(n, d);
  }

  /** `mul` returns c exactly when c is the product to 18 places with the rest dropped. */
  lemma MulIsTowardZero(a: Decimal, b: Decimal, c: Decimal)
    ensures Mul(a, b) == c <==> TowardZero(a.scaled * b.scaled, SCALE_FACTOR, c.scaled)
  {
    var n := a.scaled * b.scaled;
    TruncDivTowardZero(n, SCALE_FACTOR);
    hide TruncDiv, TowardZero;
    if TowardZero(n, SCALE_FACTOR, c.scaled) {
      TowardZeroUnique(n, SCALE_FACTOR, c.scaled, TruncDiv(n, SCALE_FACTOR));
    }
  }

  /** The exact multiplication its comment promises is kept exactly when the product has at most 18 places. */
  lemma MulIsExactIff(a: Decimal, b: Decimal)
    ensures Mul(a, b).scaled * SCALE_FACTOR == a.scaled * b.scaled <==> (a.scaled * b.scaled) % SCALE_FACTOR == 0
  {
    var n := a.scaled * b.scaled;
    TruncDivTowardZero(n, SCALE_FACTOR);
    hide TruncDiv;
    var q := n / SCALE_FACTOR;
    if n % SCALE_FACTOR == 0 {
      assert n == q * SCALE_FACTOR;
      assert TowardZero(n, SCALE_FACTOR, q);
      TowardZeroUnique(n, SCALE_FACTOR, q, Mul(a, b).scaled);
    } else if Mul(a, b).scaled * SCALE_FACTOR == n {
      MultipleHasNoRemainder(Mul(a, b).scaled, SCALE_FACTOR, n);
      assert false;
    }
  }

  lemma MultipleHasNoRemainder(q: int, d: int, n: int)
    requires d > 0 && n == q * d
    ensures n % d == 0
  {
    QuotientUnique(n, d, q);
  }

  /** 10^-9 times 5·10^-10 is 5·10^-19, which `mul` drops to zero. */
  lemma MulDropsExample()
    ensures Mul(Decimal(1_000_000_000), Decimal(500_000_000)) == Decimal(0)
  {
    TruncDivTowardZero(500_000_000_000_000_000, SCALE_FACTOR);
  }

  lemma DivRoundedIsNearest(n: int, d: int)
    requires d != 0
    ensures NearestTiesToZero(n, d, DivRounded(n, d))
  {
    TruncDivMod(n, d);
    var q, r := TruncDiv(n, d), TruncMod(n, d);
    NextMultiple(q, d);
    NearestOfRemainder(n, d, q * d, r);
  }

  lemma NextMultiple(q: int, d: int)
    ensures (q + 1) * d == q * d + d && (q - 1) * d == q * d - d
  {
  }

  /** The same fact with the multiple of d named, so that only sums are compared. */
  lemma NearestOfRemainder(n: int, d: int, m: int, r: int)
    requires n == m + r && Abs(r) < Abs(d) && (n >= 0 ==> r >= 0 && m >= 0) && (n <= 0 ==> r <= 0 && m <= 0)
    ensures var next := if (n < 0) != (d < 0) then m - d else m + d;
            if Abs(r) * 2 > Abs(d) then 2 * Abs(n - next) < Abs(d)
            else 2 * Abs(n - m) <= Abs(d) && (2 * Abs(n - m) == Abs(d) ==> Abs(m) < Abs(n))
  {
  }

  /** Two different integers near the same n/d are neighbours, with n/d midway between them. */
  lemma NearestApart(n: int, d: int, p: int, q: int)
    requires d != 0
    requires 2 * Abs(n - p * d) <= Abs(d) && 2 * Abs(n - q * d) <= Abs(d)
    requires p < q
    ensures q == p + 1 && q * d == p * d + d
    ensures 2 * (n - p * d) == d
  {
    GapOfMultiples(p, q, d);
    if q - p >= 2 {
      TwoApart(q - p, d);
    } else {
      NextMultiple(p, d);
    }
  }

  lemma GapOfMultiples(p: int, q: int, d: int)
    ensures q * d - p * d == (q - p) * d
  {
  }

  lemma TwoApart(k: int, d: int)
    requires k >= 2
    ensures Abs(k * d) >= 2 * Abs(d)
  {
    if d >= 0 {
      MulMonotone(2, k, d);
    } else {
      MulMonotone(2, k, -d);
      MulSigns(k, d);
    }
  }

  lemma NearestTiesToZeroUnique(n: int, d: int, p: int, q: int)
    requires d != 0
    requires NearestTiesToZero(n, d, p) && NearestTiesToZero(n, d, q)
    ensures p == q
  {
    if p < q {
      NearestApart(n, d, p, q);
    } else if q < p {
      NearestApart(n, d, q, p);
    }
  }

  /** `div` returns c exactly when c is the nearest decimal to a/b, ties going toward zero. */
  lemma DivIsNearestTiesToZero(a: Decimal, b: Decimal, c: Decimal)
    ensures b.scaled == 0 ==> Div(a, b) == Err(DivisionByZero)
    ensures b.scaled != 0 ==>
              (Div(a, b) == Ok(c) <==> NearestTiesToZero(a.scaled * SCALE_FACTOR, b.scaled, c.scaled))
  {
    if b.scaled != 0 {
      var n := a.scaled * SCALE_FACTOR;
      DivRoundedIsNearest(n, b.scaled);
      if NearestTiesToZero(n, b.scaled, c.scaled) {
        NearestTiesToZeroUnique(n, b.scaled, c.scaled, DivRounded(n, b.scaled));
      }
    }
  }

  /**
   The comment on `div` promises half-even. It is kept exactly when the quotient is not a tie
   whose truncation is odd.
   */
  lemma DivIsHalfEvenIff(a: Decimal, b: Decimal)
    requires b.scaled != 0
    ensures var n := a.scaled * SCALE_FACTOR;
            NearestTiesToEven(n, b.scaled, Div(a, b).value.scaled) <==>
            !(2 * Abs(TruncMod(n, b.scaled)) == Abs(b.scaled) && TruncDiv(n, b.scaled) % 2 != 0)
  {
    var n, d := a.scaled * SCALE_FACTOR, b.scaled;
    TruncDivMod(n, d);
    DivRoundedIsNearest(n, d);
    var q, r := TruncDiv(n, d), TruncMod(n, d);
    NextMultiple(q, d);
    NearestOfRemainder(n, d, q * d, r);
  }

  /** 3·10^-18 / 2 is a tie: `div` gives 1·10^-18 where half-even gives 2·10^-18. */
  lemma DivTieExample()
    ensures Div(Decimal(3), Decimal(2 * SCALE_FACTOR)) == Ok(Decimal(1))
    ensures NearestTiesToEven(3 * SCALE_FACTOR, 2 * SCALE_FACTOR, 2)
    ensures !NearestTiesToEven(3 * SCALE_FACTOR, 2 * SCALE_FACTOR, 1)
  {
  }

  // ---------------------------------------------------------------------------
  // What rounding means
  // ---------------------------------------------------------------------------

  /** `y` is the multiple of `unit` nearest to `x`; of two equally near ones, the even multiple. */
  ghost predicate HalfEven(x: int, unit: int, y: int)
  {
    exists m: int :: y == m * unit && NearestTiesToEven(x, unit, m)
  }

  lemma NearestTiesToEvenUnique(n: int, d: int, p: int, q: int)
    requires d != 0
    requires NearestTiesToEven(n, d, p) && NearestTiesToEven(n, d, q)
    ensures p == q
  {
    if p < q {
      NearestApart(n, d, p, q);
    } else if q < p {
      NearestApart(n, d, q, p);
    }
  }

  /** The multiplier `RoundToUnit` settles on. */
  function RoundedQuotient(x: int, unit: int): int
    requires unit > 0
  {
    var quotient := TruncDiv(x, unit);
    var absRemainder := Abs(TruncMod(x, unit));
    if absRemainder * 2 > unit || (absRemainder * 2 == unit && quotient % 2 != 0) then
      quotient + (if x < 0 then -1 else 1)
    else
      quotient
  }

  lemma RoundedQuotientIsNearest(x: int, unit: int)
    requires unit > 0
    ensures NearestTiesToEven(x, unit, RoundedQuotient(x, unit))
  {
    TruncDivMod(x, unit);
    var q := TruncDiv(x, unit);
    NextMultiple(q, unit);
  }

  lemma RoundToUnitIsHalfEven(x: int, unit: int)
    requires unit > 0 && unit % 2 == 0
    ensures RoundToUnit(x, unit) == RoundedQuotient(x, unit) * unit
    ensures NearestTiesToEven(x, unit, RoundedQuotient(x, unit))
    ensures HalfEven(x, unit, RoundToUnit(x, unit))
  {
    RoundedQuotientIsNearest(x, unit);
    assert unit / 2 * 2 == unit;
    ParityOfTruncation(TruncDiv(x, unit));
  }

  lemma ParityOfTruncation(q: int)
    ensures TruncMod(q, 2) != 0 <==> q % 2 != 0
  {
  }

  lemma TwiceIsEven(u: int, half: int)
    requires u == 2 * half
    ensures u % 2 == 0
  {
  }

  lemma TenfoldIsTwice(u: int, p: int)
    requires u == 10 * p
    ensures u == 2 * (5 * p)
  {
  }

  lemma UnitIsEven(dp: nat)
    requires dp < SCALE_DIGITS
    ensures Unit(dp) % 2 == 0
  {
    var u, p := Unit(dp), Pow10(SCALE_DIGITS - dp - 1);
    assert u == 10 * p;
    hide Unit, Pow10;
    TenfoldIsTwice(u, p);
    TwiceIsEven(u, 5 * p);
  }

  /** `round(dp)` returns y exactly when y is the half-even rounding to dp places. */
  lemma RoundIsHalfEven(d: Decimal, dp: int, y: Decimal)
    ensures dp < 0 ==> Round(d, dp) == Err(NegativePlaces)
    ensures dp >= SCALE_DIGITS ==> Round(d, dp) == Ok(d)
    ensures 0 <= dp < SCALE_DIGITS ==> (Round(d, dp) == Ok(y) <==> HalfEven(d.scaled, Unit(dp), y.scaled))
  {
    if 0 <= dp < SCALE_DIGITS {
      UnitIsEven(dp);
      RoundToUnitIsHalfEven(d.scaled, Unit(dp));
      if HalfEven(d.scaled, Unit(dp), y.scaled) {
        var m :| y.scaled == m * Unit(dp) && NearestTiesToEven(d.scaled, Unit(dp), m);
        NearestTiesToEvenUnique(d.scaled, Unit(dp), m, RoundedQuotient(d.scaled, Unit(dp)));
      }
    }
  }

  /** Rounding moves a value by at most half a unit of the kept place. */
  lemma RoundError(d: Decimal, dp: nat)
    ensures Round(d, dp).Ok?
    ensures 2 * Abs(Round(d, dp).value.scaled - d.scaled) <= Unit(dp)
  {
    if dp < SCALE_DIGITS {
      UnitIsEven(dp);
      RoundToUnitIsHalfEven(d.scaled, Unit(dp));
    }
  }

  /** Rounding a rounded value changes nothing. */
  lemma RoundIdempotent(d: Decimal, dp: nat)
    ensures Round(Round(d, dp).value, dp) == Round(d, dp)
  {
    if dp < SCALE_DIGITS {
      UnitIsEven(dp);
      RoundToUnitIsHalfEven(d.scaled, Unit(dp));
      var y := Round(d, dp).value;
      assert NearestTiesToEven(y.scaled, Unit(dp), RoundedQuotient(d.scaled, Unit(dp)));
      assert HalfEven(y.scaled, Unit(dp), y.scaled);
      RoundIsHalfEven(y, dp, y);
    }
  }

  /** Rounding commutes with negation. */
  lemma RoundOdd(d: Decimal, dp: nat)
    ensures Round(Decimal(-d.scaled), dp).value.scaled == -Round(d, dp).value.scaled
  {
    if dp < SCALE_DIGITS {
      UnitIsEven(dp);
      var unit := Unit(dp);
      RoundToUnitIsHalfEven(d.scaled, unit);
      var m := RoundedQuotient(d.scaled, unit);
      MulSigns(m, unit);
      assert NearestTiesToEven(-d.scaled, unit, -m);
      assert HalfEven(-d.scaled, unit, -m * unit);
      RoundIsHalfEven(Decimal(-d.scaled), dp, Decimal(-m * unit));
    }
  }

  lemma NearestMonotone(a: int, b: int, unit: int, p: int, q: int)
    requires unit > 0 && a <= b
    requires NearestTiesToEven(a, unit, p) && NearestTiesToEven(b, unit, q)
    ensures p <= q
  {
    if q < p {
      // a >= (p - 1/2)unit >= (q + 1/2)unit >= b, so a = b and the rounding would be ambiguous.
      MulMonotone(q + 1, p, unit);
      assert (q + 1) * unit == q * unit + unit;
      NearestTiesToEvenUnique(a, unit, p, q);
    }
  }

  /** Rounding preserves order. */
  lemma RoundMonotone(a: Decimal, b: Decimal, dp: nat)
    requires a.scaled <= b.scaled
    ensures Round(a, dp).value.scaled <= Round(b, dp).value.scaled
  {
    if dp < SCALE_DIGITS {
      UnitIsEven(dp);
      var unit := Unit(dp);
      RoundToUnitIsHalfEven(a.scaled, unit);
      RoundToUnitIsHalfEven(b.scaled, unit);
      var p, q := RoundedQuotient(a.scaled, unit), RoundedQuotient(b.scaled, unit);
      NearestMonotone(a.scaled, b.scaled, unit, p, q);
      MulMonotone(p, q, unit);
    }
  }
}
