/** Volume-weighted average price over decimals (src/core/decimal.ts: `sum`, `vwap`). */
module Vwap {
  import opened FixedPoint
  import opened Sums
  import opened Truncation
  import opened Wrappers

  datatype PricedFill = PricedFill(price: Decimal, quantity: Decimal)

  /** The scaled notional of one fill, truncated by `mul`. */
  function ScaledNotional(f: PricedFill): int {
    Mul(f.price, f.quantity).scaled
  }

  function ScaledQuantity(f: PricedFill): int {
    f.quantity.scaled
  }

  /** The untruncated product, in units of 10^-36. */
  function ExactNotional(f: PricedFill): int {
    f.price.scaled * f.quantity.scaled
  }

  /** What `vwap` returns. */
  function Average(fills: seq<PricedFill>): Option<Decimal> {
    var quantity := IntSum(fills, ScaledQuantity);
    if quantity == 0 then None
    else Some(Decimal(DivRounded(IntSum(fills, ScaledNotional) * SCALE_FACTOR, quantity)))
  }

  method Compute(fills: seq<PricedFill>) returns (r: Option<Decimal>)
    ensures r == Average(fills)
  {
    var totalNotional, totalQty := ZERO, ZERO;
    for i := 0 to |fills|
      invariant totalNotional.scaled == IntSum(fills[..i], ScaledNotional)
      invariant totalQty.scaled == IntSum(fills[..i], ScaledQuantity)
    {
      assert fills[..i + 1][..i] == fills[..i];
      totalNotional := Add(totalNotional, Mul(fills[i].price, fills[i].quantity));
      totalQty := Add(totalQty, fills[i].quantity);
    }
    assert fills[..|fills|] == fills;
    if totalQty.scaled == 0 {
      return None;
    }
    r := Some(Div(totalNotional, totalQty).value);
  }

  /** The average is the nearest decimal to notional over quantity, ties toward zero; none at quantity zero. */
  lemma AverageIsNearest(fills: seq<PricedFill>, c: Decimal)
    ensures var notional, quantity := IntSum(fills, ScaledNotional), IntSum(fills, ScaledQuantity);
            && (Average(fills).None? <==> quantity == 0)
            && (quantity != 0 ==>
                  (Average(fills) == Some(c) <==> NearestTiesToZero(notional * SCALE_FACTOR, quantity, c.scaled)))
  {
    var notional, quantity := IntSum(fills, ScaledNotional), IntSum(fills, ScaledQuantity);
    DivIsNearestTiesToZero(Decimal(notional), Decimal(quantity), c);
    hide IntSum, DivRounded, NearestTiesToZero;
  }

  /** The average depends on which fills there are, not on their order. */
  lemma AverageOfPermutation(a: seq<PricedFill>, b: seq<PricedFill>)
    requires multiset(a) == multiset(b)
    ensures Average(a) == Average(b)
  {
    IntSumPermutation(a, b, ScaledNotional);
    IntSumPermutation(a, b, ScaledQuantity);
  }

  /** Neither prices nor quantities are negative, and prices lie between lo and hi. */
  predicate PricesWithin(fills: seq<PricedFill>, lo: int, hi: int) {
    forall f :: f in fills ==> 0 <= f.quantity.scaled && 0 <= lo <= f.price.scaled <= hi
  }

  /** Truncating each product loses less than one unit per fill. */
  lemma {:induction false} TruncationLoss(fills: seq<PricedFill>, lo: int, hi: int)
    requires PricesWithin(fills, lo, hi)
    ensures IntSum(fills, ScaledNotional) * SCALE_FACTOR <= IntSum(fills, ExactNotional)
    ensures IntSum(fills, ExactNotional) <= (IntSum(fills, ScaledNotional) + |fills|) * SCALE_FACTOR
  {
    if fills != [] {
      var f := fills[|fills| - 1];
      TruncationLoss(fills[..|fills| - 1], lo, hi);
      assert f in fills;
      ProductLoss(f);
    }
  }

  lemma ProductLoss(f: PricedFill)
    requires 0 <= f.price.scaled && 0 <= f.quantity.scaled
    ensures ScaledNotional(f) * SCALE_FACTOR <= ExactNotional(f) <= (ScaledNotional(f) + 1) * SCALE_FACTOR
  {
    assert f.price.scaled * f.quantity.scaled >= 0;
  }

  /** The exact notional lies between the extreme prices times the total quantity. */
  lemma {:induction false} ExactNotionalWithin(fills: seq<PricedFill>, lo: int, hi: int)
    requires PricesWithin(fills, lo, hi)
    ensures lo * IntSum(fills, ScaledQuantity) <= IntSum(fills, ExactNotional)
    ensures IntSum(fills, ExactNotional) <= hi * IntSum(fills, ScaledQuantity)
    ensures 0 <= IntSum(fills, ScaledQuantity)
  {
    if fills != [] {
      var f := fills[|fills| - 1];
      ExactNotionalWithin(fills[..|fills| - 1], lo, hi);
      assert f in fills;
      MulMonotone(lo, f.price.scaled, f.quantity.scaled);
      MulMonotone(f.price.scaled, hi, f.quantity.scaled);
      var rest := IntSum(fills[..|fills| - 1], ScaledQuantity);
      assert lo * (rest + f.quantity.scaled) == lo * rest + lo * f.quantity.scaled;
      assert hi * (rest + f.quantity.scaled) == hi * rest + hi * f.quantity.scaled;
    }
  }

  /**
   For fills of non-negative price and quantity, the average never exceeds the highest price.
   It may fall short of the lowest, by at most n * 10^18 / Q + 1/2 units, where Q is the total
   scaled quantity and n the number of fills.
   */
  lemma AverageWithinPrices(fills: seq<PricedFill>, lo: int, hi: int)
    requires PricesWithin(fills, lo, hi)
    requires IntSum(fills, ScaledQuantity) > 0
    ensures Average(fills).Some?
    ensures Average(fills).value.scaled <= hi
    ensures var quantity := IntSum(fills, ScaledQuantity);
            2 * (lo - Average(fills).value.scaled) * quantity <= 2 * |fills| * SCALE_FACTOR + quantity
  {
    TruncationLoss(fills, lo, hi);
    ExactNotionalWithin(fills, lo, hi);
    var notional := IntSum(fills, ScaledNotional) * SCALE_FACTOR;
    var quantity := IntSum(fills, ScaledQuantity);
    DivRoundedIsNearest(notional, quantity);
    QuotientWithin(notional, quantity, lo, hi, |fills| * SCALE_FACTOR, Average(fills).value.scaled);
  }

  lemma QuotientWithin(notional: int, quantity: int, lo: int, hi: int, loss: int, v: int)
    requires quantity > 0
    requires lo * quantity <= notional + loss && notional <= hi * quantity
    requires NearestTiesToZero(notional, quantity, v)
    ensures v <= hi
    ensures 2 * (lo - v) * quantity <= 2 * loss + quantity
  {
    assert (hi + 1) * quantity == hi * quantity + quantity;
    if v > hi {
      MulMonotone(hi + 1, v, quantity);
    }
    assert 2 * (lo - v) * quantity == 2 * (lo * quantity) - 2 * (v * quantity);
  }

  /** The shortfall is real: one unit of price on one unit of quantity averages to zero. */
  lemma AverageBelowLowestExample()
    ensures PricesWithin([PricedFill(Decimal(1), Decimal(1))], 1, 1)
    ensures Average([PricedFill(Decimal(1), Decimal(1))]) == Some(Decimal(0))
  {
    var f := PricedFill(Decimal(1), Decimal(1));
    assert [f][..0] == [];
    assert IntSum([f], ScaledNotional) == 0 && IntSum([f], ScaledQuantity) == 1;
  }
}
