/**
 Execution reports from the user stream and the execution record they update
 (src/execution/ExecutionManager.ts: `onExecutionReport`, `averagePrice`, `weightedAverage`).
 Quantities and prices are decimal text, as they are on the wire.
 */
module StreamFills {
  import opened DecimalPrint
  import opened DecimalText
  import opened FixedPoint
  import opened Placement
  import opened Sums
  import opened Vwap
  import opened Wrappers

  datatype Fill = Fill(
    price: string,
    quantity: string,
    commission: Option<string>,
    commissionAsset: Option<string>,
    tradeId: Option<int>)

  /** The execution envelope, as far as reports and reconciliation touch it. */
  datatype ExecutionView = ExecutionView(
    intentId: string,
    clientOrderId: string,
    exchangeOrderId: Option<int>,
    status: string,
    executedQuantity: Option<string>,
    cumulativeQuoteQuantity: Option<string>,
    averagePrice: Option<string>,
    fills: seq<Fill>,
    reconciliationState: Verdict)

  datatype Report = Report(
    clientOrderId: string,
    orderId: Option<int>,
    status: string,
    lastPrice: Option<string>,
    lastQty: Option<string>,
    commission: Option<string>,
    commissionAsset: Option<string>,
    executedQty: Option<string>,
    cumQuote: Option<string>,
    avgPrice: Option<string>,
    tradeId: Option<int>)

  predicate Numeral(text: string) {
    Parsed(text).Ok?
  }

  predicate NumeralIfAny(text: Option<string>) {
    text.Some? ==> Numeral(text.value)
  }

  /** Decimal.from of numeral text. */
  function Num(text: string): Decimal {
    match Parsed(text)
    case Ok(d) => d
    case Err(_) => ZERO
  }

  function NumIfAny(text: Option<string>): Option<Decimal> {
    if text.Some? then Some(Num(text.value)) else None
  }

  /** A report that carries numerals wherever it carries numbers. */
  predicate Numeric(r: Report) {
    && NumeralIfAny(r.lastPrice) && NumeralIfAny(r.executedQty) && NumeralIfAny(r.cumQuote) && NumeralIfAny(r.avgPrice)
    && (CarriesFill(r) ==> Numeral(r.lastQty.value))
  }

  predicate NumericView(v: ExecutionView) {
    && NumeralIfAny(v.executedQuantity) && NumeralIfAny(v.cumulativeQuoteQuantity) && NumeralIfAny(v.averagePrice)
    && forall f :: f in v.fills ==> NumericFill(f)
  }

  // ---------------------------------------------------------------------------
  // Averages
  // ---------------------------------------------------------------------------

  /** The helper `averagePrice`: quote over quantity when that is known and not zero, else the fallback. */
  function AveragePrice(
    executedQty: Option<Decimal>, cumQuote: Option<Decimal>, fallback: Option<string>): Option<string> {
    if executedQty.Some? && executedQty.value.scaled != 0 && cumQuote.Some?
       && Div(cumQuote.value, executedQty.value).value.scaled != 0 then
      Some(Text(Div(cumQuote.value, executedQty.value).value))
    else if fallback.None? || fallback.value == "" then None
    else if Num(fallback.value).scaled == 0 then None
    else Some(Text(Num(fallback.value)))
  }

  function PricedOf(f: Fill): PricedFill {
    PricedFill(Num(f.price), Num(f.quantity))
  }

  /** `averagePrice` reads its fallback only when quote over quantity gives nothing. */
  predicate UsesFallback(executedQty: Option<Decimal>, cumQuote: Option<Decimal>) {
    || executedQty.None? || executedQty.value.scaled == 0 || cumQuote.None?
    || Div(cumQuote.value, executedQty.value).value.scaled == 0
  }

  /** Whether `averagePrice` gets by without text that does not parse. */
  predicate AverageReadable(executedQty: Option<string>, cumQuote: Option<string>, fallback: Option<string>) {
    && NumeralIfAny(executedQty) && NumeralIfAny(cumQuote)
    && (UsesFallback(NumIfAny(executedQty), NumIfAny(cumQuote)) && fallback != Some("") ==> NumeralIfAny(fallback))
  }

  predicate NumericFill(f: Fill) {
    Numeral(f.price) && Numeral(f.quantity)
  }

  /** The fills as prices and quantities. */
  function Priced(fills: seq<Fill>): seq<PricedFill> {
    seq(|fills|, i requires 0 <= i < |fills| => PricedOf(fills[i]))
  }

  /** The helper `weightedAverage` prints the volume-weighted average of the fills. */
  function WeightedAverage(fills: seq<Fill>): Option<string> {
    match Average(Priced(fills))
    case None => None
    case Some(d) => Some(Text(d))
  }

  /** The sums of the loop, so far. */
  function NotionalTo(fills: seq<Fill>, i: nat): int
    requires i <= |fills|
  {
    IntSum(Priced(fills)[..i], ScaledNotional)
  }

  function QuantityTo(fills: seq<Fill>, i: nat): int
    requires i <= |fills|
  {
    IntSum(Priced(fills)[..i], ScaledQuantity)
  }

  lemma SumsOneMore(fills: seq<Fill>, i: nat, price: Decimal, quantity: Decimal)
    requires i < |fills| && price == Num(fills[i].price) && quantity == Num(fills[i].quantity)
    ensures NotionalTo(fills, i + 1) == NotionalTo(fills, i) + Mul(price, quantity).scaled
    ensures QuantityTo(fills, i + 1) == QuantityTo(fills, i) + quantity.scaled
  {
    hide Num, Mul;
    var priced := Priced(fills);
    assert priced[..i + 1][..i] == priced[..i];
    assert priced[..i + 1][i] == PricedFill(price, quantity);
  }

  lemma SumsOfNone(fills: seq<Fill>)
    ensures NotionalTo(fills, 0) == 0 && QuantityTo(fills, 0) == 0
  {
  }

  lemma AverageOfSums(fills: seq<Fill>, notional: Decimal, qty: Decimal)
    requires notional.scaled == NotionalTo(fills, |fills|) && qty.scaled == QuantityTo(fills, |fills|)
    ensures qty.scaled == 0 ==> WeightedAverage(fills) == None
    ensures qty.scaled != 0 ==> Div(notional, qty).Ok? && WeightedAverage(fills) == Some(Text(Div(notional, qty).value))
  {
    assert Priced(fills)[..|fills|] == Priced(fills);
    hide IntSum, Text, DivRounded, Priced;
  }

  method ComputeWeightedAverage(fills: seq<Fill>) returns (r: Option<string>)
    ensures r == WeightedAverage(fills)
  {
    hide NotionalTo, QuantityTo, Num, Mul, Div, Text, WeightedAverage;
    var notional, qty := ZERO, ZERO;
    SumsOfNone(fills);
    for i := 0 to |fills|
      invariant notional.scaled == NotionalTo(fills, i) && qty.scaled == QuantityTo(fills, i)
    {
      var price, quantity := Num(fills[i].price), Num(fills[i].quantity);
      SumsOneMore(fills, i, price, quantity);
      notional := Add(notional, Mul(price, quantity));
      qty := Add(qty, quantity);
    }
    AverageOfSums(fills, notional, qty);
    if qty.scaled == 0 {
      return None;
    }
    r := Some(Text(Div(notional, qty).value));
  }

  // ---------------------------------------------------------------------------
  // One report
  // ---------------------------------------------------------------------------

  /** The report carries a trade: a last quantity other than the texts "0" and "". */
  predicate CarriesFill(r: Report) {
    r.lastQty.Some? && r.lastQty.value != "0" && r.lastQty.value != ""
  }

  function FillOf(r: Report): Fill
    requires CarriesFill(r)
  {
    Fill(
      if r.lastPrice.Some? then r.lastPrice.value else "0",
      r.lastQty.value,
      if r.commission.Some? && r.commission.value != "0" then r.commission else None,
      if r.commissionAsset.Some? && r.commissionAsset.value != "" then r.commissionAsset else None,
      r.tradeId)
  }

  /** A trade with a positive id that the record already has. */
  predicate SeenTrade(fills: seq<Fill>, r: Report) {
    r.tradeId.Some? && r.tradeId.value > 0 && exists i :: 0 <= i < |fills| && fills[i].tradeId == r.tradeId
  }

  function FillsAfter(fills: seq<Fill>, r: Report): seq<Fill> {
    if CarriesFill(r) && !SeenTrade(fills, r) then fills + [FillOf(r)] else fills
  }

  function Normal(text: string): string {
    Text(Num(text))
  }

  function Else(a: Option<string>, b: Option<string>): Option<string> {
    if a.Some? then a else b
  }

  function ExecutedAfter(v: ExecutionView, r: Report): Option<string> {
    if r.executedQty.Some? then Some(Normal(r.executedQty.value)) else v.executedQuantity
  }

  function WithExecuted(v: ExecutionView, r: Report): ExecutionView {
    v.(executedQuantity := ExecutedAfter(v, r))
  }

  /** Cumulative quote: reported, else kept, else estimated from the executed quantity on record. */
  function QuoteFrom(v: ExecutionView, r: Report): Option<string> {
    var avg := Else(r.avgPrice, v.averagePrice);
    if r.cumQuote.Some? then Some(Normal(r.cumQuote.value))
    else if v.cumulativeQuoteQuantity.None? && v.executedQuantity.Some? && avg.Some? then
      Some(Text(Mul(Num(v.executedQuantity.value), Num(avg.value))))
    else v.cumulativeQuoteQuantity
  }

  function QuoteAfter(v: ExecutionView, r: Report): Option<string> {
    QuoteFrom(WithExecuted(v, r), r)
  }

  function AverageAfter(v: ExecutionView, r: Report): Option<string> {
    var fills := FillsAfter(v.fills, r);
    if fills == [] then
      Else(AveragePrice(NumIfAny(ExecutedAfter(v, r)), NumIfAny(QuoteAfter(v, r)), Else(r.avgPrice, v.averagePrice)),
           v.averagePrice)
    else WeightedAverage(fills)
  }

  // The updates of one report, in the order they are made.

  function WithHeader(v: ExecutionView, r: Report): ExecutionView {
    v.(status := if r.status != "" then r.status else v.status,
       exchangeOrderId := if v.exchangeOrderId.None? then r.orderId else v.exchangeOrderId)
  }

  function WithFill(v: ExecutionView, r: Report): ExecutionView {
    v.(fills := FillsAfter(v.fills, r))
  }

  function WithQuote(v: ExecutionView, r: Report): ExecutionView {
    v.(cumulativeQuoteQuantity := QuoteFrom(v, r))
  }

  function WithAverage(v: ExecutionView, r: Report): ExecutionView {
    v.(averagePrice :=
       if v.fills == [] then
         Else(AveragePrice(NumIfAny(v.executedQuantity), NumIfAny(v.cumulativeQuoteQuantity),
           Else(r.avgPrice, v.averagePrice)),
              v.averagePrice)
       else WeightedAverage(v.fills))
  }

  /** Whether the quote can be taken over or estimated; `v` has the executed quantity already. */
  predicate QuoteReadable(v: ExecutionView, r: Report) {
    if r.cumQuote.Some? then Numeral(r.cumQuote.value)
    else v.cumulativeQuoteQuantity.None? ==> NumeralIfAny(v.executedQuantity)
                                             && (v.executedQuantity.Some? ==>
                                                   NumeralIfAny(Else(r.avgPrice, v.averagePrice)))
  }

  /** Whether the average can be computed; `v` has fills and totals already. */
  predicate AverageStepReadable(v: ExecutionView, r: Report) {
    if v.fills == [] then
      AverageReadable(v.executedQuantity, v.cumulativeQuoteQuantity, Else(r.avgPrice, v.averagePrice))
    else forall f :: f in v.fills ==> NumericFill(f)
  }

  /** What a report makes of an execution, and whether it threw on the way, at text that does not parse. */
  datatype Applied = Applied(view: ExecutionView, threw: bool)

  /** `onExecutionReport` on an execution: every update before a throw stays. */
  function Apply(v: ExecutionView, r: Report): Applied {
    var filled := WithFill(WithHeader(v, r), r);
    if !NumeralIfAny(r.executedQty) then Applied(filled, true)
    else
      var counted := WithExecuted(filled, r);
      if !QuoteReadable(counted, r) then Applied(counted, true)
      else
        var quoted := WithQuote(counted, r);
        if !AverageStepReadable(quoted, r) then Applied(quoted, true) else Applied(WithAverage(quoted, r), false)
  }

  /** What `onExecutionReport` makes of an execution when it runs to its end. */
  function Reported(v: ExecutionView, r: Report): ExecutionView {
    v.(status := if r.status != "" then r.status else v.status,
       exchangeOrderId := if v.exchangeOrderId.None? then r.orderId else v.exchangeOrderId,
       fills := FillsAfter(v.fills, r),
       executedQuantity := ExecutedAfter(v, r),
       cumulativeQuoteQuantity := QuoteAfter(v, r),
       averagePrice := AverageAfter(v, r))
  }

  lemma SameQuote(v: ExecutionView, counted: ExecutionView, r: Report)
    requires counted.executedQuantity == ExecutedAfter(v, r)
    requires counted.cumulativeQuoteQuantity == v.cumulativeQuoteQuantity
    requires counted.averagePrice == v.averagePrice
    ensures QuoteFrom(counted, r) == QuoteAfter(v, r)
  {
    hide Num, Text, Mul, Normal, ExecutedAfter;
  }

  lemma StagesAreReported(v: ExecutionView, r: Report)
    ensures WithAverage(WithQuote(WithExecuted(WithFill(WithHeader(v, r), r), r), r), r) == Reported(v, r)
  {
    var counted := WithExecuted(WithFill(WithHeader(v, r), r), r);
    SameQuote(v, counted, r);
    hide QuoteFrom, FillsAfter, ExecutedAfter, QuoteAfter, AveragePrice, WeightedAverage, NumIfAny;
  }

  /** A report adds its fill and takes over its header whether it throws or not; if not, everything is updated. */
  lemma AppliedOrReported(v: ExecutionView, r: Report)
    ensures var a := Apply(v, r);
            && a.view.intentId == v.intentId && a.view.clientOrderId == v.clientOrderId
            && a.view.reconciliationState == v.reconciliationState
            && a.view.fills == FillsAfter(v.fills, r)
            && (!a.threw ==> a.view == Reported(v, r))
  {
    var filled := WithFill(WithHeader(v, r), r);
    var counted := WithExecuted(filled, r);
    StagesAreReported(v, r);
    StagesKeepOutline(filled, r);
    StagesKeepOutline(counted, r);
    StagesKeepOutline(WithQuote(counted, r), r);
    hide FillsAfter, WithExecuted, WithQuote, WithAverage, Reported, NumeralIfAny, QuoteReadable, AverageStepReadable;
  }

  predicate SameOutline(a: ExecutionView, b: ExecutionView) {
    && a.intentId == b.intentId && a.clientOrderId == b.clientOrderId && a.reconciliationState == b.reconciliationState
    && a.fills == b.fills
  }

  /** The updates after the fill change numbers only. */
  lemma StagesKeepOutline(v: ExecutionView, r: Report)
    ensures SameOutline(WithExecuted(v, r), v) && SameOutline(WithQuote(v, r), v) && SameOutline(WithAverage(v, r), v)
  {
    hide ExecutedAfter, QuoteFrom, AveragePrice, WeightedAverage;
  }

  lemma TextIsNumeral(d: Decimal)
    ensures Numeral(Text(d)) && Num(Text(d)) == d
  {
    ToStringRoundTrip(d);
  }

  lemma ZeroIsNumeral(text: string)
    requires text == "0"
    ensures Numeral(text)
  {
    var lit := Literal("", "0", false, "", None);
    assert Render(lit) == text;
    ParsedOfRender(lit);
  }

  /** What the printer prints and what the wire carries is numeral text, so every field stays so. */
  lemma ExecutedIsNumeric(v: ExecutionView, r: Report)
    requires NumericView(v) && Numeric(r)
    ensures NumeralIfAny(ExecutedAfter(v, r))
  {
    if r.executedQty.Some? {
      TextIsNumeral(Num(r.executedQty.value));
    }
    hide Numeral, Text, Num;
  }

  lemma QuoteIsNumeric(v: ExecutionView, r: Report)
    requires NumericView(v) && Numeric(r)
    ensures NumeralIfAny(QuoteAfter(v, r))
  {
    hide Numeral, Text, Num, Mul;
    if r.cumQuote.Some? {
      TextIsNumeral(Num(r.cumQuote.value));
    } else {
      var executed, avg := ExecutedAfter(v, r), Else(r.avgPrice, v.averagePrice);
      if executed.Some? && avg.Some? {
        TextIsNumeral(Mul(Num(executed.value), Num(avg.value)));
      }
    }
  }

  lemma AveragePriceIsNumeric(executedQty: Option<Decimal>, cumQuote: Option<Decimal>, fallback: Option<string>)
    ensures NumeralIfAny(AveragePrice(executedQty, cumQuote, fallback))
  {
    hide Numeral, Text, Num, DivRounded;
    if executedQty.Some? && executedQty.value.scaled != 0 && cumQuote.Some? {
      TextIsNumeral(Div(cumQuote.value, executedQty.value).value);
    }
    if fallback.Some? {
      TextIsNumeral(Num(fallback.value));
    }
  }

  lemma WeightedAverageIsNumeric(fills: seq<Fill>)
    ensures NumeralIfAny(WeightedAverage(fills))
  {
    hide Numeral, Text, Num, Average, Priced;
    var average := Average(Priced(fills));
    if average.Some? {
      TextIsNumeral(average.value);
    }
  }

  lemma FillsStayNumeric(v: ExecutionView, r: Report)
    requires NumericView(v) && Numeric(r)
    ensures forall f :: f in FillsAfter(v.fills, r) ==> NumericFill(f)
  {
    ZeroIsNumeral("0");
    hide Numeral, SeenTrade;
  }

  /** Numeric reports keep a record numeric. */
  lemma ReportedIsNumeric(v: ExecutionView, r: Report)
    requires NumericView(v) && Numeric(r)
    ensures NumericView(Reported(v, r))
  {
    ExecutedIsNumeric(v, r);
    QuoteIsNumeric(v, r);
    FillsStayNumeric(v, r);
    WeightedAverageIsNumeric(FillsAfter(v.fills, r));
    AveragePriceIsNumeric(NumIfAny(ExecutedAfter(v, r)), NumIfAny(QuoteAfter(v, r)), Else(r.avgPrice, v.averagePrice));
    hide Numeral, Text, Num, NumIfAny, FillsAfter, WeightedAverage, AveragePrice, ExecutedAfter, QuoteAfter, Numeric;
  }

  /** A numeric report on a numeric record never throws, and leaves a numeric record. */
  lemma NumericNeverThrows(v: ExecutionView, r: Report)
    requires NumericView(v) && Numeric(r)
    ensures Apply(v, r) == Applied(Reported(v, r), false) && NumericView(Reported(v, r))
  {
    ReportedIsNumeric(v, r);
    ExecutedIsNumeric(v, r);
    QuoteIsNumeric(v, r);
    FillsStayNumeric(v, r);
    StagesAreReported(v, r);
    var counted := WithExecuted(WithFill(WithHeader(v, r), r), r);
    assert counted.executedQuantity == ExecutedAfter(v, r) && counted.fills == FillsAfter(v.fills, r);
    NumericQuote(v, counted, r);
    hide Numeral, FillsAfter, ExecutedAfter, QuoteAfter, QuoteFrom, AveragePrice, WeightedAverage, NumIfAny,
         UsesFallback, QuoteReadable,
      CarriesFill, NumericFill, Reported;
  }

  lemma NumericQuote(v: ExecutionView, counted: ExecutionView, r: Report)
    requires NumericView(v) && Numeric(r) && NumeralIfAny(ExecutedAfter(v, r))
    requires counted.executedQuantity == ExecutedAfter(v, r)
    requires counted.cumulativeQuoteQuantity == v.cumulativeQuoteQuantity
    requires counted.averagePrice == v.averagePrice
    ensures QuoteReadable(counted, r) && QuoteFrom(counted, r) == QuoteAfter(v, r)
  {
    SameQuote(v, counted, r);
    hide Numeral, QuoteAfter, QuoteFrom, ExecutedAfter, CarriesFill, NumericFill;
  }

  // ---------------------------------------------------------------------------
  // Any number of reports
  // ---------------------------------------------------------------------------

  function AfterReports(v: ExecutionView, reports: seq<Report>): ExecutionView {
    if reports == [] then v else Apply(AfterReports(v, reports[..|reports| - 1]), reports[|reports| - 1]).view
  }

  /** The last of some reports threw, so that the average price was not brought up to date. */
  predicate LastThrew(v: ExecutionView, reports: seq<Report>) {
    reports != [] && Apply(AfterReports(v, reports[..|reports| - 1]), reports[|reports| - 1]).threw
  }

  predicate AllNumeric(reports: seq<Report>) {
    forall r :: r in reports ==> Numeric(r)
  }

  /** Numeric reports keep a numeric record numeric, and none of them throws. */
  lemma {:induction false} NumericReportsNeverThrow(v: ExecutionView, reports: seq<Report>)
    requires NumericView(v) && AllNumeric(reports)
    ensures NumericView(AfterReports(v, reports)) && !LastThrew(v, reports)
  {
    if reports != [] {
      var front, r := reports[..|reports| - 1], reports[|reports| - 1];
      assert r in reports && forall x :: x in front ==> x in reports;
      NumericReportsNeverThrow(v, front);
      hide NumericView, Numeric, Apply, Reported;
      NumericNeverThrows(AfterReports(v, front), r);
    }
  }

  /** Every trade reported has a positive id, and an id always comes with the same payload. */
  ghost predicate Consistent(reports: seq<Report>) {
    && (forall r :: r in reports && CarriesFill(r) ==> r.tradeId.Some? && r.tradeId.value > 0)
    && (forall a, b :: a in reports && b in reports && CarriesFill(a) && CarriesFill(b) && a.tradeId == b.tradeId ==>
          FillOf(a) == FillOf(b))
  }

  /** The trades some reports carry, those with ids on record aside. */
  function Trades(known: seq<Fill>, reports: seq<Report>): set<Fill> {
    set r | r in reports && CarriesFill(r) && !SeenTrade(known, r) :: FillOf(r)
  }

  predicate DistinctIds(fills: seq<Fill>) {
    forall i, j :: 0 <= i < j < |fills| ==> fills[i].tradeId != fills[j].tradeId
  }

  /** The fills on record first, then each reported trade exactly once. */
  ghost predicate OnceEach(known: seq<Fill>, reports: seq<Report>, fills: seq<Fill>) {
    && known <= fills
    && DistinctIds(fills[|known|..])
    && (forall f :: f in fills[|known|..] <==> f in Trades(known, reports))
  }

  lemma FillsAfterOneMore(v: ExecutionView, front: seq<Report>, r: Report)
    ensures AfterReports(v, front + [r]).fills == FillsAfter(AfterReports(v, front).fills, r)
  {
    assert (front + [r])[..|front|] == front;
    AppliedOrReported(AfterReports(v, front), r);
    hide FillsAfter, Apply, Reported;
  }

  lemma {:induction false} ReportsApplyOnce(v: ExecutionView, reports: seq<Report>)
    requires Consistent(reports)
    ensures OnceEach(v.fills, reports, AfterReports(v, reports).fills)
  {
    if reports == [] {
      assert v.fills[|v.fills|..] == [];
    } else {
      hide OnceEach, FillsAfter, AfterReports;
      var front, r := reports[..|reports| - 1], reports[|reports| - 1];
      assert reports == front + [r];
      ConsistentFront(front, r);
      ReportsApplyOnce(v, front);
      OneMoreReport(v.fills, front, r, AfterReports(v, front).fills);
      FillsAfterOneMore(v, front, r);
    }
  }

  lemma ConsistentFront(front: seq<Report>, r: Report)
    requires Consistent(front + [r])
    ensures Consistent(front)
  {
    assert forall x :: x in front ==> x in front + [r];
    hide CarriesFill, FillOf;
  }

  lemma TradesOneMore(known: seq<Fill>, front: seq<Report>, r: Report)
    ensures Trades(known, front + [r]) ==
            Trades(known, front) + if CarriesFill(r) && !SeenTrade(known, r) then {FillOf(r)} else {}
  {
    var all := front + [r];
    forall f ensures f in Trades(known, all) <==>
                     f in Trades(known, front) || (CarriesFill(r) && !SeenTrade(known, r) && f == FillOf(r))
    {
      if x :| x in all && CarriesFill(x) && !SeenTrade(known, x) && FillOf(x) == f {
        assert x in front || x == r;
      }
      if x :| x in front && CarriesFill(x) && !SeenTrade(known, x) && FillOf(x) == f {
        assert x in all;
      }
      assert r in all;
    }
  }

  lemma OneMoreReport(known: seq<Fill>, front: seq<Report>, r: Report, fills: seq<Fill>)
    requires Consistent(front + [r]) && OnceEach(known, front, fills)
    ensures OnceEach(known, front + [r], FillsAfter(fills, r))
  {
    TradesOneMore(known, front, r);
    assert r in front + [r];
    var added := fills[|known|..];
    if CarriesFill(r) {
      SeenSplits(known, fills, r);
      if SeenTrade(fills, r) && !SeenTrade(known, r) {
        var k :| 0 <= k < |added| && added[k].tradeId == r.tradeId;
        SameTrade(known, front, r, added[k]);
      } else if !SeenTrade(fills, r) {
        var longer := fills + [FillOf(r)];
        assert longer[|known|..] == added + [FillOf(r)];
      }
    }
  }

  /** A fill with the id of a report is that report's fill. */
  lemma SameTrade(known: seq<Fill>, front: seq<Report>, r: Report, f: Fill)
    requires Consistent(front + [r]) && CarriesFill(r)
    requires f in Trades(known, front) && f.tradeId == r.tradeId
    ensures f == FillOf(r)
  {
    var x :| x in front && CarriesFill(x) && !SeenTrade(known, x) && FillOf(x) == f;
    assert x in front + [r] && r in front + [r];
  }

  /** A trade is seen in the fills on record or in those added. */
  lemma SeenSplits(known: seq<Fill>, fills: seq<Fill>, r: Report)
    requires known <= fills && r.tradeId.Some? && r.tradeId.value > 0
    ensures SeenTrade(fills, r) <==>
            SeenTrade(known, r) || exists k :: 0 <= k < |fills[|known|..]| && fills[|known|..][k].tradeId == r.tradeId
  {
    if i :| 0 <= i < |fills| && fills[i].tradeId == r.tradeId {
      if i < |known| {
        assert known[i] == fills[i];
      } else {
        assert fills[|known|..][i - |known|] == fills[i];
      }
    }
    if i :| 0 <= i < |known| && known[i].tradeId == r.tradeId {
      assert fills[i] == known[i];
    }
    if k :| 0 <= k < |fills[|known|..]| && fills[|known|..][k].tradeId == r.tradeId {
      assert fills[k + |known|] == fills[|known|..][k];
    }
  }

  /** Taking one fill out of a sequence without repeated ids takes it out of its elements. */
  lemma WithoutOne(s: seq<Fill>, k: nat)
    requires DistinctIds(s) && k < |s|
    ensures DistinctIds(s[..k] + s[k + 1..])
    ensures forall f :: f in s[..k] + s[k + 1..] <==> f in s && f != s[k]
    ensures multiset(s) == multiset(s[..k] + s[k + 1..]) + multiset{s[k]}
  {
    var rest := s[..k] + s[k + 1..];
    assert forall j :: 0 <= j < |rest| ==> rest[j] == s[if j < k then j else j + 1];
    WithoutOneMembers(s, k, rest);
    assert s == s[..k] + [s[k]] + s[k + 1..];
  }

  lemma WithoutOneMembers(s: seq<Fill>, k: nat, rest: seq<Fill>)
    requires DistinctIds(s) && k < |s| && |rest| == |s| - 1
    requires forall j :: 0 <= j < |rest| ==> rest[j] == s[if j < k then j else j + 1]
    ensures forall f :: f in rest <==> f in s && f != s[k]
  {
    forall f ensures f in rest <==> f in s && f != s[k] {
      if f in rest {
        var j :| 0 <= j < |rest| && rest[j] == f;
        assert s[if j < k then j else j + 1] == f;
      }
      if f in s && f != s[k] {
        var i :| 0 <= i < |s| && s[i] == f;
        assert rest[if i < k then i else i - 1] == f;
      }
    }
  }

  ghost predicate SameElements(a: seq<Fill>, b: seq<Fill>) {
    forall f :: f in a <==> f in b
  }

  lemma SameWithoutOne(a: seq<Fill>, b: seq<Fill>, k: nat)
    requires DistinctIds(a) && DistinctIds(b) && SameElements(a, b)
    requires a != [] && k < |b| && b[k] == a[0]
    ensures DistinctIds(a[1..]) && DistinctIds(b[..k] + b[k + 1..])
    ensures SameElements(a[1..], b[..k] + b[k + 1..])
  {
    WithoutOne(a, 0);
    WithoutOne(b, k);
    var front, rest := a[..0] + a[1..], b[..k] + b[k + 1..];
    assert front == a[1..];
    hide DistinctIds;
    forall f ensures f in front <==> f in rest {
      assert f in front <==> f in a && f != a[0];
      assert f in rest <==> f in b && f != b[k];
    }
  }

  lemma MatchingElement(a: seq<Fill>, b: seq<Fill>) returns (k: nat)
    requires SameElements(a, b) && a != []
    ensures k < |b| && b[k] == a[0]
  {
    assert a[0] in b;
    k :| 0 <= k < |b| && b[k] == a[0];
  }

  lemma {:induction false} DistinctSameSet(a: seq<Fill>, b: seq<Fill>)
    requires DistinctIds(a) && DistinctIds(b) && SameElements(a, b)
    ensures multiset(a) == multiset(b)
  {
    if a == [] {
      assert forall i :: 0 <= i < |b| ==> b[i] in b;
    } else {
      hide DistinctIds, SameElements;
      var k := MatchingElement(a, b);
      SameWithoutOne(a, b, k);
      DistinctSameSet(a[1..], b[..k] + b[k + 1..]);
      assert a == [a[0]] + a[1..];
      assert b == b[..k] + [b[k]] + b[k + 1..];
    }
  }

  lemma PricedOfConcat(a: seq<Fill>, b: seq<Fill>)
    ensures Priced(a + b) == Priced(a) + Priced(b)
  {
    hide PricedOf;
  }

  lemma PricedWithOne(a: seq<Fill>, f: Fill, b: seq<Fill>)
    ensures multiset(Priced(a + [f] + b)) == multiset(Priced(a + b)) + multiset{PricedOf(f)}
  {
    PricedOfConcat(a + [f], b);
    PricedOfConcat(a, [f]);
    PricedOfConcat(a, b);
    assert Priced([f]) == [PricedOf(f)];
    hide Priced, PricedOf;
    assert Priced(a + [f] + b) == Priced(a) + [PricedOf(f)] + Priced(b);
  }

  lemma {:induction false} PricedPermutation(a: seq<Fill>, b: seq<Fill>)
    requires multiset(a) == multiset(b)
    ensures multiset(Priced(a)) == multiset(Priced(b))
  {
    if a == [] {
      assert |multiset(b)| == 0;
    } else {
      hide Priced, PricedOf;
      var k := PermutationSplit(a, b);
      var front, before, x, after := a[..|a| - 1], b[..k], b[k], b[k + 1..];
      assert a == front + [x] + [] && b == before + [x] + after && front + [] == front;
      PricedPermutation(front, before + after);
      PricedWithOne(front, x, []);
      PricedWithOne(before, x, after);
    }
  }

  lemma WeightedAverageOfPermutation(a: seq<Fill>, b: seq<Fill>)
    requires multiset(a) == multiset(b)
    ensures WeightedAverage(a) == WeightedAverage(b)
  {
    PricedPermutation(a, b);
    hide Average, Priced, Text;
    AverageOfPermutation(Priced(a), Priced(b));
  }

  lemma SameFills(known: seq<Fill>, first: seq<Report>, second: seq<Report>, a: seq<Fill>, b: seq<Fill>)
    requires Trades(known, first) == Trades(known, second)
    requires OnceEach(known, first, a) && OnceEach(known, second, b)
    ensures multiset(a) == multiset(b)
  {
    hide Trades;
    DistinctSameSet(a[|known|..], b[|known|..]);
    assert a == known + a[|known|..] && b == known + b[|known|..];
  }

  lemma AverageIsOfFills(v: ExecutionView, reports: seq<Report>)
    requires reports != [] && AfterReports(v, reports).fills != [] && !LastThrew(v, reports)
    ensures AfterReports(v, reports).averagePrice == WeightedAverage(AfterReports(v, reports).fills)
  {
    hide AfterReports, WeightedAverage, AveragePrice, FillsAfter, ExecutedAfter, QuoteAfter, NumericFill,
         AverageReadable;
    AfterLast(v, reports);
  }

  lemma AfterLast(v: ExecutionView, reports: seq<Report>)
    requires reports != []
    ensures AfterReports(v, reports) == Apply(AfterReports(v, reports[..|reports| - 1]), reports[|reports| - 1]).view
  {
    hide Apply;
  }

  /**
   Stream fills converge: any two deliveries of the same trades, in any order and with any
   repetition, leave the same fills, each once. Unless the last report of one of them threw, they
   leave the same average price.
   */
  lemma ReportsConverge(v: ExecutionView, first: seq<Report>, second: seq<Report>)
    requires Consistent(first) && Consistent(second) && Trades(v.fills, first) == Trades(v.fills, second)
    ensures multiset(AfterReports(v, first).fills) == multiset(AfterReports(v, second).fills)
    ensures first != [] && second != [] && AfterReports(v, first).fills != []
            && !LastThrew(v, first) && !LastThrew(v, second) ==>
              AfterReports(v, first).averagePrice == AfterReports(v, second).averagePrice
  {
    hide AfterReports, OnceEach, Consistent, Trades, WeightedAverage, LastThrew;
    var a, b := AfterReports(v, first).fills, AfterReports(v, second).fills;
    ReportsApplyOnce(v, first);
    ReportsApplyOnce(v, second);
    SameFills(v.fills, first, second, a, b);
    if first != [] && second != [] && a != [] && !LastThrew(v, first) && !LastThrew(v, second) {
      assert |multiset(a)| == |multiset(b)|;
      AverageIsOfFills(v, first);
      AverageIsOfFills(v, second);
      WeightedAverageOfPermutation(a, b);
    }
  }

  /** From an empty record the fills are the trades, each once. */
  lemma FromEmptyExactlyTheTrades(v: ExecutionView, reports: seq<Report>)
    requires v.fills == [] && Consistent(reports)
    ensures var fills := AfterReports(v, reports).fills;
            && DistinctIds(fills)
            && forall f :: f in fills <==> exists r :: r in reports && CarriesFill(r) && FillOf(r) == f
  {
    ReportsApplyOnce(v, reports);
    var fills := AfterReports(v, reports).fills;
    assert fills[0..] == fills;
    forall f ensures f in Trades([], reports) <==> exists r :: r in reports && CarriesFill(r) && FillOf(r) == f {
      if r :| r in reports && CarriesFill(r) && FillOf(r) == f {
        assert !SeenTrade([], r);
      }
    }
  }

  /** Delivering a report again adds no fill exactly when it carries no trade or its trade has a positive id. */
  lemma ReplayAddsNothingIff(fills: seq<Fill>, r: Report)
    ensures FillsAfter(FillsAfter(fills, r), r) == FillsAfter(fills, r) <==>
            !CarriesFill(r) || (r.tradeId.Some? && r.tradeId.value > 0)
  {
    if CarriesFill(r) && !SeenTrade(fills, r) {
      var once := fills + [FillOf(r)];
      assert once[|fills|].tradeId == r.tradeId;
      assert |once + [FillOf(r)]| == |once| + 1;
    }
  }

  /** A fill that came with the REST reply carries no trade id, so its report is counted again. */
  lemma RestFillCountedTwice(v: ExecutionView, r: Report)
    requires CarriesFill(r) && r.tradeId.Some? && r.tradeId.value > 0
    requires v.fills == [FillOf(r).(tradeId := None)]
    ensures Apply(v, r).view.fills == [FillOf(r).(tradeId := None), FillOf(r)]
  {
    AppliedOrReported(v, r);
    hide Apply, Reported;
  }
}
