/**
 What any number of execution reports leave in a record, told from the reports alone
 (src/execution/ExecutionManager.ts: `onExecutionReport`, `averagePrice`, `weightedAverage`):
 status, exchange order id, executed quantity, cumulative quote, fills and average.
 */
module StreamTotals {
  import opened DecimalPrint
  import opened FixedPoint
  import opened StreamFills
  import Sums
  import opened Vwap
  import opened Wrappers

  // ---------------------------------------------------------------------------
  // What reports give
  // ---------------------------------------------------------------------------

  /** The last value that some reports give, if any does. */
  function LastGiven<T>(reports: seq<Report>, given: Report -> Option<T>): Option<T> {
    if reports == [] then None
    else
      var r := reports[|reports| - 1];
      if given(r).Some? then given(r) else LastGiven(reports[..|reports| - 1], given)
  }

  /** The first. */
  function FirstGiven<T>(reports: seq<Report>, given: Report -> Option<T>): Option<T> {
    if reports == [] then None
    else
      var earlier := FirstGiven(reports[..|reports| - 1], given);
      if earlier.Some? then earlier else given(reports[|reports| - 1])
  }

  function StatusGiven(r: Report): Option<string> {
    if r.status != "" then Some(r.status) else None
  }

  function OrderIdGiven(r: Report): Option<int> {
    r.orderId
  }

  /** The executed quantity of a report, if it parses. */
  function ExecutedGiven(r: Report): Option<string> {
    if r.executedQty.Some? && Numeral(r.executedQty.value) then r.executedQty else None
  }

  /** The cumulative quote of a report, if it parses and the handler gets as far. */
  function QuoteGiven(r: Report): Option<string> {
    if NumeralIfAny(r.executedQty) && r.cumQuote.Some? && Numeral(r.cumQuote.value) then r.cumQuote else None
  }

  /** The field has the value of this text, or is left as it was where there is none. */
  predicate TakenOver(after: Option<string>, given: Option<string>, before: Option<string>) {
    if given.Some? then after.Some? && Num(after.value) == Num(given.value) else after == before
  }

  // ---------------------------------------------------------------------------
  // One report
  // ---------------------------------------------------------------------------

  lemma NormalKeepsValue(text: string)
    ensures Num(Normal(text)) == Num(text)
  {
    TextIsNumeral(Num(text));
  }

  lemma OneHeader(v: ExecutionView, r: Report)
    ensures var t := Apply(v, r).view;
            && t.status == (if StatusGiven(r).Some? then StatusGiven(r).value else v.status)
            && t.exchangeOrderId == (if v.exchangeOrderId.Some? then v.exchangeOrderId else OrderIdGiven(r))
  {
    hide FillsAfter, ExecutedAfter, QuoteFrom, AveragePrice, WeightedAverage, NumeralIfAny, QuoteReadable,
         AverageStepReadable;
  }

  /** Which updates leave the executed quantity alone. */
  lemma ExecutedKept(v: ExecutionView, r: Report)
    ensures WithFill(WithHeader(v, r), r).executedQuantity == v.executedQuantity
    ensures WithQuote(v, r).executedQuantity == v.executedQuantity
    ensures WithAverage(v, r).executedQuantity == v.executedQuantity
    ensures WithExecuted(v, r).executedQuantity == ExecutedAfter(v, r)
  {
    hide FillsAfter, ExecutedAfter, QuoteFrom, AveragePrice, WeightedAverage;
  }

  lemma AppliedExecuted(v: ExecutionView, r: Report)
    ensures Apply(v, r).view.executedQuantity ==
            if NumeralIfAny(r.executedQty) then ExecutedAfter(v, r) else v.executedQuantity
  {
    var filled := WithFill(WithHeader(v, r), r);
    var counted := WithExecuted(filled, r);
    ExecutedKept(v, r);
    ExecutedKept(filled, r);
    assert ExecutedAfter(filled, r) == ExecutedAfter(v, r) by {
      hide Normal;
    }
    ExecutedKept(counted, r);
    ExecutedKept(WithQuote(counted, r), r);
    hide ExecutedAfter, WithHeader, WithFill, WithExecuted, WithQuote, WithAverage, NumeralIfAny, QuoteReadable;
    hide AverageStepReadable;
  }

  lemma OneExecuted(v: ExecutionView, r: Report)
    ensures TakenOver(Apply(v, r).view.executedQuantity, ExecutedGiven(r), v.executedQuantity)
  {
    AppliedExecuted(v, r);
    if r.executedQty.Some? {
      NormalKeepsValue(r.executedQty.value);
    }
    hide Apply, Normal, Num, Numeral;
  }

  lemma OneQuote(v: ExecutionView, r: Report)
    requires QuoteGiven(r).Some? || v.cumulativeQuoteQuantity.Some?
    ensures TakenOver(Apply(v, r).view.cumulativeQuoteQuantity, QuoteGiven(r), v.cumulativeQuoteQuantity)
  {
    if r.cumQuote.Some? {
      NormalKeepsValue(r.cumQuote.value);
    }
    hide Normal, Num, Numeral, Text, Mul, FillsAfter, ExecutedAfter, AveragePrice, WeightedAverage, AverageStepReadable;
  }

  // ---------------------------------------------------------------------------
  // Any number of reports
  // ---------------------------------------------------------------------------

  /**
   After any reports, whichever of them threw: the status is the last one given; the exchange's
   order id is the first known; the executed quantity has the value of the last one that parsed,
   and the cumulative quote likewise, once there was one.
   */
  lemma {:induction false} ReportsReachTheRecord(v: ExecutionView, reports: seq<Report>)
    ensures var t := AfterReports(v, reports);
            var status, orderId := LastGiven(reports, StatusGiven), FirstGiven(reports, OrderIdGiven);
            && t.status == (if status.Some? then status.value else v.status)
            && t.exchangeOrderId == (if v.exchangeOrderId.Some? then v.exchangeOrderId else orderId)
            && TakenOver(t.executedQuantity, LastGiven(reports, ExecutedGiven), v.executedQuantity)
            && (LastGiven(reports, QuoteGiven).Some? || v.cumulativeQuoteQuantity.Some? ==>
                  TakenOver(t.cumulativeQuoteQuantity, LastGiven(reports, QuoteGiven), v.cumulativeQuoteQuantity))
  {
    if reports != [] {
      var front, r := reports[..|reports| - 1], reports[|reports| - 1];
      var before := AfterReports(v, front);
      ReportsReachTheRecord(v, front);
      OneHeader(before, r);
      OneExecuted(before, r);
      if QuoteGiven(r).Some? || before.cumulativeQuoteQuantity.Some? {
        OneQuote(before, r);
      }
      hide Apply, StatusGiven, OrderIdGiven, ExecutedGiven, QuoteGiven, Num;
    }
  }

  // ---------------------------------------------------------------------------
  // The estimated quote
  // ---------------------------------------------------------------------------

  /** The average price there is when the quote is looked at: the report's, else the one on record. */
  function AverageKnown(v: ExecutionView, reports: seq<Report>, k: nat): Option<string>
    requires k < |reports|
  {
    if reports[k].avgPrice.Some? then reports[k].avgPrice else AfterReports(v, reports[..k]).averagePrice
  }

  /** At the k-th report both an executed quantity and an average price are known. */
  predicate CanEstimate(v: ExecutionView, reports: seq<Report>, k: nat) {
    k < |reports| && AfterReports(v, reports[..k + 1]).executedQuantity.Some? && AverageKnown(v, reports, k).Some?
  }

  ghost predicate FirstEstimate(v: ExecutionView, reports: seq<Report>, k: nat) {
    CanEstimate(v, reports, k) && forall j: nat :: j < k ==> !CanEstimate(v, reports, j)
  }

  /** The executed quantity after the k-th report times the average price known then. */
  function Estimate(v: ExecutionView, reports: seq<Report>, k: nat): Decimal
    requires CanEstimate(v, reports, k)
  {
    Mul(Num(AfterReports(v, reports[..k + 1]).executedQuantity.value), Num(AverageKnown(v, reports, k).value))
  }

  lemma OneEstimate(v: ExecutionView, r: Report)
    requires NumericView(v) && Numeric(r) && v.cumulativeQuoteQuantity.None? && r.cumQuote.None?
    ensures var t := Apply(v, r).view;
            var avg := if r.avgPrice.Some? then r.avgPrice else v.averagePrice;
            && (t.cumulativeQuoteQuantity.Some? <==> t.executedQuantity.Some? && avg.Some?)
            && (t.cumulativeQuoteQuantity.Some? ==>
                  Num(t.cumulativeQuoteQuantity.value) == Mul(Num(t.executedQuantity.value), Num(avg.value)))
  {
    NumericNeverThrows(v, r);
    var executed, avg := ExecutedAfter(v, r), if r.avgPrice.Some? then r.avgPrice else v.averagePrice;
    if executed.Some? && avg.Some? {
      TextIsNumeral(Mul(Num(executed.value), Num(avg.value)));
    }
    hide Apply, Numeral, Num, Text, Mul, ExecutedAfter, AverageAfter, FillsAfter, NumericView, Numeric;
  }

  lemma SamePrefix(v: ExecutionView, front: seq<Report>, r: Report, k: nat)
    requires k < |front|
    ensures CanEstimate(v, front + [r], k) <==> CanEstimate(v, front, k)
    ensures CanEstimate(v, front, k) ==> Estimate(v, front + [r], k) == Estimate(v, front, k)
  {
    var all := front + [r];
    assert all[..k + 1] == front[..k + 1] && all[..k] == front[..k] && all[k] == front[k];
    hide AfterReports, Mul, Num;
  }

  /**
   Where no quote was on record and none is ever reported, the quote is estimated, once, at the
   first report that finds a quantity and an average price: it is their product, and is kept.
   */
  lemma {:induction false} QuoteIsEstimated(v: ExecutionView, reports: seq<Report>)
    requires NumericView(v) && AllNumeric(reports) && v.cumulativeQuoteQuantity.None?
    requires forall r :: r in reports ==> r.cumQuote.None?
    ensures var quote := AfterReports(v, reports).cumulativeQuoteQuantity;
            && (quote.Some? <==> exists k: nat :: CanEstimate(v, reports, k))
            && forall k: nat :: FirstEstimate(v, reports, k) ==>
                 quote.Some? && Num(quote.value) == Estimate(v, reports, k)
  {
    if reports != [] {
      var front, r := reports[..|reports| - 1], reports[|reports| - 1];
      assert reports == front + [r] && r in reports && forall x :: x in front ==> x in reports;
      assert QuoteGiven(r).None? && Numeric(r) && AllNumeric(front);
      QuoteIsEstimated(v, front);
      EstimateOneMore(v, front, r);
    }
  }

  lemma EstimateOneMore(v: ExecutionView, front: seq<Report>, r: Report)
    requires NumericView(v) && AllNumeric(front) && Numeric(r) && r.cumQuote.None?
    requires var quote := AfterReports(v, front).cumulativeQuoteQuantity;
             && (quote.Some? <==> exists k: nat :: CanEstimate(v, front, k))
             && forall k: nat :: FirstEstimate(v, front, k) ==>
                  quote.Some? && Num(quote.value) == Estimate(v, front, k)
    ensures var all := front + [r];
            var quote := AfterReports(v, all).cumulativeQuoteQuantity;
            && (quote.Some? <==> exists k: nat :: CanEstimate(v, all, k))
            && forall k: nat :: FirstEstimate(v, all, k) ==> quote.Some? && Num(quote.value) == Estimate(v, all, k)
  {
    var all, before, n := front + [r], AfterReports(v, front), |front|;
    assert all[..n] == front && all[..n + 1] == all && all[n] == r;
    NumericReportsNeverThrow(v, front);
    assert AfterReports(v, all) == Apply(before, r).view;
    if before.cumulativeQuoteQuantity.Some? {
      OneQuote(before, r);
    } else {
      OneEstimate(before, r);
    }
    forall k: nat | k < n
      ensures CanEstimate(v, all, k) <==> CanEstimate(v, front, k)
      ensures CanEstimate(v, front, k) ==> Estimate(v, all, k) == Estimate(v, front, k)
    {
      SamePrefix(v, front, r, k);
    }
    assert CanEstimate(v, all, n) <==> Apply(before, r).view.executedQuantity.Some? && AverageKnown(v, all, n).Some?;
    assert AverageKnown(v, all, n) == if r.avgPrice.Some? then r.avgPrice else before.averagePrice;
    var executed := Apply(before, r).view.executedQuantity;
    assert CanEstimate(v, all, n) ==>
        Estimate(v, all, n) == Mul(Num(executed.value), Num(AverageKnown(v, all, n).value));
    hide AfterReports, Apply, Num, Mul, Numeral, NumericView, Numeric, AllNumeric, CanEstimate, Estimate, AverageKnown;
    EstimateCases(v, front, all, before.cumulativeQuoteQuantity, AfterReports(v, all).cumulativeQuoteQuantity);
  }

  /** Whether and when an estimate is made, one report further. */
  lemma EstimateCases(
    v: ExecutionView, front: seq<Report>, all: seq<Report>, before: Option<string>, after: Option<string>)
    requires |all| == |front| + 1
    requires forall k: nat :: k < |front| ==> (CanEstimate(v, all, k) <==> CanEstimate(v, front, k))
    requires forall k: nat :: k < |front| && CanEstimate(v, front, k) ==> Estimate(v, all, k) == Estimate(v, front, k)
    requires forall k: nat :: CanEstimate(v, front, k) ==> k < |front|
    requires forall k: nat :: CanEstimate(v, all, k) ==> k < |all|
    requires before.Some? <==> exists k: nat :: CanEstimate(v, front, k)
    requires forall k: nat :: FirstEstimate(v, front, k) ==> before.Some? && Num(before.value) == Estimate(v, front, k)
    requires before.Some? ==> after == before
    requires before.None? ==> (after.Some? <==> CanEstimate(v, all, |front|))
    requires before.None? && after.Some? ==> Num(after.value) == Estimate(v, all, |front|)
    ensures after.Some? <==> exists k: nat :: CanEstimate(v, all, k)
    ensures forall k: nat :: FirstEstimate(v, all, k) ==> after.Some? && Num(after.value) == Estimate(v, all, k)
  {
    hide CanEstimate, Estimate, Num;
    if before.Some? {
      var k: nat :| CanEstimate(v, front, k);
      assert CanEstimate(v, all, k);
    }
    if k: nat :| CanEstimate(v, all, k) {
      assert k < |front| ==> CanEstimate(v, front, k);
    }
    forall k: nat | FirstEstimate(v, all, k) ensures after.Some? && Num(after.value) == Estimate(v, all, k) {
      if before.Some? {
        var j: nat :| CanEstimate(v, front, j);
        assert CanEstimate(v, all, j);
        assert k <= j < |front| && FirstEstimate(v, front, k);
      }
    }
  }

  // ---------------------------------------------------------------------------
  // Averages
  // ---------------------------------------------------------------------------

  /** The nearest decimal to a quotient, ties toward zero. */
  ghost predicate IsQuotient(quote: Decimal, quantity: Decimal, c: Decimal) {
    quantity.scaled != 0 && NearestTiesToZero(quote.scaled * SCALE_FACTOR, quantity.scaled, c.scaled)
  }

  /**
   The helper `averagePrice`: quote over quantity, where both are known and it is not zero;
   otherwise the fallback, where there is one that is not zero; otherwise nothing.
   */
  lemma AverageIsQuoteOverQuantity(
    executedQty: Option<Decimal>, cumQuote: Option<Decimal>, fallback: Option<string>, c: Decimal)
    requires executedQty.Some? && cumQuote.Some? && executedQty.value.scaled != 0 ==>
               IsQuotient(cumQuote.value, executedQty.value, c)
    ensures var average := AveragePrice(executedQty, cumQuote, fallback);
            if executedQty.Some? && cumQuote.Some? && executedQty.value.scaled != 0 && c.scaled != 0 then
              average.Some? && Num(average.value) == c
            else if fallback.Some? && fallback.value != "" && Num(fallback.value).scaled != 0 then
              average.Some? && Num(average.value) == Num(fallback.value)
            else average.None?
  {
    AveragePriceIs(executedQty, cumQuote, fallback, c);
    TextIsNumeral(c);
    if fallback.Some? {
      TextIsNumeral(Num(fallback.value));
    }
    hide AveragePrice, Num, Text, Numeral, IsQuotient;
  }

  lemma AveragePriceIs(
    executedQty: Option<Decimal>, cumQuote: Option<Decimal>, fallback: Option<string>, c: Decimal)
    requires executedQty.Some? && cumQuote.Some? && executedQty.value.scaled != 0 ==>
               IsQuotient(cumQuote.value, executedQty.value, c)
    ensures AveragePrice(executedQty, cumQuote, fallback) ==
            if executedQty.Some? && cumQuote.Some? && executedQty.value.scaled != 0 && c.scaled != 0 then Some(Text(c))
            else if fallback.Some? && fallback.value != "" && Num(fallback.value).scaled != 0 then
              Some(Text(Num(fallback.value)))
            else None
  {
    if executedQty.Some? && cumQuote.Some? && executedQty.value.scaled != 0 {
      DivIsNearestTiesToZero(cumQuote.value, executedQty.value, c);
      assert Div(cumQuote.value, executedQty.value) == Ok(c);
    }
    hide Num, Text, Div, IsQuotient;
  }

  /** The average price of a record without fills is its quote over its quantity, behind a report that did not throw. */
  lemma AverageOfTotals(v: ExecutionView, r: Report, c: Decimal)
    requires !Apply(v, r).threw && Apply(v, r).view.fills == []
    requires var t := Apply(v, r).view;
             && t.executedQuantity.Some? && t.cumulativeQuoteQuantity.Some?
             && IsQuotient(Num(t.cumulativeQuoteQuantity.value), Num(t.executedQuantity.value), c) && c.scaled != 0
    ensures var average := Apply(v, r).view.averagePrice; average.Some? && Num(average.value) == c
  {
    var t := Apply(v, r).view;
    AppliedOrReported(v, r);
    AverageIsQuoteOverQuantity(
      NumIfAny(t.executedQuantity), NumIfAny(t.cumulativeQuoteQuantity), Else(r.avgPrice, v.averagePrice), c);
    hide Apply, FillsAfter, ExecutedAfter, QuoteAfter, AveragePrice, WeightedAverage, Num, IsQuotient;
  }

  /** The quantities of some fills, added up. */
  function TotalQuantity(fills: seq<Fill>): int {
    if fills == [] then 0 else TotalQuantity(fills[..|fills| - 1]) + Num(fills[|fills| - 1].quantity).scaled
  }

  /** Price times quantity of each fill, to 18 places, added up. */
  function TotalNotional(fills: seq<Fill>): int {
    if fills == [] then 0
    else
      var last := fills[|fills| - 1];
      TotalNotional(fills[..|fills| - 1]) + Mul(Num(last.price), Num(last.quantity)).scaled
  }

  lemma {:induction false} TotalsOfPriced(fills: seq<Fill>)
    ensures Sums.IntSum(Priced(fills), ScaledQuantity) == TotalQuantity(fills)
    ensures Sums.IntSum(Priced(fills), ScaledNotional) == TotalNotional(fills)
  {
    hide Num, Mul;
    if fills != [] {
      var front, last := fills[..|fills| - 1], fills[|fills| - 1];
      TotalsOfPriced(front);
      assert Priced(fills)[..|fills| - 1] == Priced(front);
      assert Priced(fills)[|fills| - 1] == PricedFill(Num(last.price), Num(last.quantity));
    }
  }

  /** The average of fills is their notional over their quantity; there is none where the quantities cancel out. */
  lemma AverageOfFills(fills: seq<Fill>, c: Decimal)
    ensures WeightedAverage(fills).None? <==> TotalQuantity(fills) == 0
    ensures IsQuotient(Decimal(TotalNotional(fills)), Decimal(TotalQuantity(fills)), c) ==>
              WeightedAverage(fills).Some? && Num(WeightedAverage(fills).value) == c
  {
    TotalsOfPriced(fills);
    var quantity, notional := Decimal(TotalQuantity(fills)), Decimal(TotalNotional(fills));
    if quantity.scaled != 0 {
      DivIsNearestTiesToZero(notional, quantity, c);
    }
    TextIsNumeral(c);
    hide Num, Text, Numeral, DivRounded, NearestTiesToZero, TotalQuantity, TotalNotional, Priced, Sums.IntSum;
  }

  /** Behind a report that did not throw, a record with fills carries their average. */
  lemma RecordCarriesAverage(v: ExecutionView, r: Report, c: Decimal)
    requires !Apply(v, r).threw && Apply(v, r).view.fills != []
    requires var fills := Apply(v, r).view.fills;
             IsQuotient(Decimal(TotalNotional(fills)), Decimal(TotalQuantity(fills)), c)
    ensures var average := Apply(v, r).view.averagePrice; average.Some? && Num(average.value) == c
  {
    AppliedOrReported(v, r);
    AverageOfFills(Apply(v, r).view.fills, c);
    hide Apply, FillsAfter, ExecutedAfter, QuoteAfter, AveragePrice, WeightedAverage, Num, IsQuotient;
    hide TotalNotional, TotalQuantity;
  }

  // ---------------------------------------------------------------------------
  // The fill of a report
  // ---------------------------------------------------------------------------

  /** A report that carries a trade the record does not know by a positive id adds its fill, field by field. */
  lemma FillIsReported(v: ExecutionView, r: Report)
    ensures var fills := Apply(v, r).view.fills;
            var known := r.tradeId.Some? && r.tradeId.value > 0 && exists f :: f in v.fills && f.tradeId == r.tradeId;
            if r.lastQty.Some? && r.lastQty.value != "0" && r.lastQty.value != "" && !known then
              && |fills| == |v.fills| + 1 && fills[..|v.fills|] == v.fills
              && var f := fills[|v.fills|];
                 && f.quantity == r.lastQty.value && f.tradeId == r.tradeId
                 && f.price == (if r.lastPrice.Some? then r.lastPrice.value else "0")
                 && (f.commission.Some? <==> r.commission.Some? && r.commission.value != "0")
                 && (f.commission.Some? ==> f.commission == r.commission)
                 && (f.commissionAsset.Some? <==> r.commissionAsset.Some? && r.commissionAsset.value != "")
                 && (f.commissionAsset.Some? ==> f.commissionAsset == r.commissionAsset)
            else fills == v.fills
  {
    AppliedOrReported(v, r);
    assert (exists i :: 0 <= i < |v.fills| && v.fills[i].tradeId == r.tradeId) <==>
           exists f :: f in v.fills && f.tradeId == r.tradeId by {
      if f :| f in v.fills && f.tradeId == r.tradeId {
        var i :| 0 <= i < |v.fills| && v.fills[i] == f;
      }
      if i :| 0 <= i < |v.fills| && v.fills[i].tradeId == r.tradeId {
        assert v.fills[i] in v.fills;
      }
    }
    hide Apply, Reported;
  }
}
