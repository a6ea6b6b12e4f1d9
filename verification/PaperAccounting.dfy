/**
 The accounting of the paper simulator as functions on values
 (src/paper/PaperTradingEngine.ts). The engine class is proved to compute these functions; the
 theorems about every run are in PaperLedger.
 */
module PaperAccounting {
  import opened PaperModels
  import opened Sums
  import opened Text
  import opened Wrappers

  datatype PositionSide = LONG | SHORT | NONE

  datatype Position = Position(
    side: PositionSide,
    entryPrice: real,
    quantity: real,
    leverage: real,
    margin: real,
    unrealizedPnl: real)

  const EMPTY: Position := Position(NONE, 0.0, 0.0, 1.0, 0.0, 0.0)

  /** Slack of the margin check. */
  const MARGIN_SLACK := 0.000000001

  datatype PaperOrder = PaperOrder(
    orderId: int,
    symbol: string,
    side: Side,
    orderType: OrderType,
    quantity: real,
    status: QuoteStatus,
    filledQuantity: real,
    avgFillPrice: real,
    realizedPnl: real,
    commission: Option<real>)

  /** `symbols` lists the keys of `positions` in the order they were created. */
  datatype Account = Account(
    balance: real,
    availableBalance: real,
    totalWalletBalance: real,
    realizedPnl: real,
    unrealizedPnl: real,
    symbols: seq<string>,
    positions: map<string, Position>,
    orders: seq<PaperOrder>,
    orderIdCounter: int)

  function Opening(initialBalance: real): Account {
    Account(initialBalance, initialBalance, initialBalance, 0.0, 0.0, [], map[], [], 1_000_000)
  }

  datatype OrderParams = OrderParams(
    symbol: string,
    side: Side,
    orderType: OrderType,
    quantity: real,
    price: Option<real>,
    leverage: Option<real>)

  datatype Refusal =
    | BadQuantity
    | BadLeverage
    | BadPrice
    | ModelRejected
    | ZeroFill
    | InsufficientBalance

  // ---------------------------------------------------------------------------
  // One position
  // ---------------------------------------------------------------------------

  function Direction(side: PositionSide): real {
    if side == LONG then 1.0 else -1.0
  }

  function Incoming(side: Side): PositionSide {
    if side == BUY then LONG else SHORT
  }

  predicate Opposing(p: Position, side: Side) {
    (side == SELL && p.side == LONG) || (side == BUY && p.side == SHORT)
  }

  /** What a fill does: the position it leaves and the changes it makes to the balances. */
  datatype FillEffect = FillEffect(position: Position, realized: real, availableDelta: real)

  /** `openExposure`. */
  function Opened(p: Position, side: PositionSide, quantity: real, price: real, leverage: real): FillEffect
    requires leverage != 0.0
  {
    var total := p.quantity + quantity;
    var entry := if total > 0.0 then (p.entryPrice * p.quantity + price * quantity) / total else price;
    var margin := quantity * price / leverage;
    FillEffect(Position(side, entry, total, leverage, p.margin + margin, p.unrealizedPnl), 0.0, -margin)
  }

  /** The pro-rata margin that closing part of a position releases. */
  function Released(p: Position, closeQty: real): real {
    if p.quantity > 0.0 then p.margin * (closeQty / p.quantity) else 0.0
  }

  /** Profit of closing part of a position at a price. */
  function Profit(p: Position, closeQty: real, price: real): real {
    (price - p.entryPrice) * closeQty * Direction(p.side)
  }

  /** `reduceExposure`: at or below the dust cutoff the position is wiped. */
  function Reduced(dust: real, p: Position, closeQty: real, price: real): FillEffect {
    var realized := Profit(p, closeQty, price);
    var released := Released(p, closeQty);
    var quantity := p.quantity - closeQty;
    var margin := p.margin - released;
    if quantity <= dust then
      FillEffect(Position(NONE, 0.0, 0.0, p.leverage, 0.0, 0.0), realized, released + realized + margin)
    else
      FillEffect(p.(quantity := quantity, margin := margin), realized, released + realized)
  }

  /** `applyFill`: open, extend, reduce, close, or flip through zero. */
  function Filled(dust: real, p: Position, side: Side, quantity: real, price: real, leverage: real): FillEffect
    requires leverage != 0.0
  {
    if p.side == NONE || p.quantity == 0.0 || p.side == Incoming(side) then
      Opened(p, Incoming(side), quantity, price, leverage)
    else
      var closeQty := Min(quantity, p.quantity);
      var reduced := Reduced(dust, p, closeQty, price);
      var remainder := quantity - closeQty;
      if remainder > 0.0 then
        var flipped := Opened(reduced.position, Incoming(side), remainder, price, leverage);
        FillEffect(flipped.position, reduced.realized, reduced.availableDelta + flipped.availableDelta)
      else
        reduced
  }

  /** `markToMarket` of one position. */
  function Marked(p: Position, price: real): Position {
    if p.side == NONE || p.quantity == 0.0 then p.(unrealizedPnl := 0.0)
    else p.(unrealizedPnl := (price - p.entryPrice) * p.quantity * Direction(p.side))
  }

  // ---------------------------------------------------------------------------
  // The account
  // ---------------------------------------------------------------------------

  function At(positions: map<string, Position>, symbol: string): Position {
    if symbol in positions then positions[symbol] else EMPTY
  }

  /** `positionFor`: a position that does not exist yet is created empty. */
  function WithPosition(a: Account, symbol: string): Account {
    if symbol in a.positions then a
    else a.(symbols := a.symbols + [symbol], positions := a.positions[symbol := EMPTY])
  }

  function UnrealizedOf(p: Position): real {
    p.unrealizedPnl
  }

  function Each(positions: map<string, Position>, f: Position -> real): string -> real {
    (symbol: string) => f(At(positions, symbol))
  }

  /** A measure of positions summed over all of them, in the order they were created. */
  function Across(symbols: seq<string>, positions: map<string, Position>, f: Position -> real): real {
    RealSum(symbols, Each(positions, f))
  }

  /** `recomputeTotals`. */
  function Recomputed(a: Account): Account {
    var unrealized := Across(a.symbols, a.positions, UnrealizedOf);
    a.(unrealizedPnl := unrealized, totalWalletBalance := a.balance + unrealized)
  }

  function ContextOf(params: OrderParams, marketPrice: real): ExecutionContext {
    ExecutionContext(
      ToUpper(params.symbol), params.side, params.orderType, params.quantity,
      if params.orderType == LIMIT then params.price else None, marketPrice)
  }

  function LeverageOf(params: OrderParams): real {
    if params.leverage.Some? then params.leverage.value else 1.0
  }

  /** The checks made before the market is asked for a price. */
  function Precheck(params: OrderParams): Option<Refusal> {
    if !(params.quantity > 0.0) then Some(BadQuantity)
    else if LeverageOf(params) < 1.0 || LeverageOf(params) > 125.0 then Some(BadLeverage)
    else if params.orderType == LIMIT && !(params.price.Some? && params.price.value > 0.0) then Some(BadPrice)
    else None
  }

  function RequiredMargin(p: Position, params: OrderParams, quote: ExecutionQuote): real
    requires LeverageOf(params) != 0.0
  {
    var openingQty :=
      if Opposing(p, params.side) then Max(0.0, quote.filledQuantity - p.quantity) else quote.filledQuantity;
    openingQty * quote.fillPrice / LeverageOf(params)
  }

  function Commission(fees: Option<FeeModel>, quote: ExecutionQuote, ctx: ExecutionContext): real {
    if fees.Some? then fees.value(quote, ctx) else 0.0
  }

  /** The state changes of an accepted fill: the position, the balances, the fee. */
  function Booked(a: Account, symbol: string, effect: FillEffect, commission: real): Account {
    a.(balance := a.balance + effect.realized - commission,
       availableBalance := a.availableBalance + effect.availableDelta,
       realizedPnl := a.realizedPnl + effect.realized - commission,
       positions := a.positions[symbol := effect.position])
  }

  function OrderOf(
    a: Account, params: OrderParams, quote: ExecutionQuote, realized: real, commission: real): PaperOrder {
    PaperOrder(
      a.orderIdCounter + 1, ToUpper(params.symbol), params.side, params.orderType, params.quantity,
      if quote.status == FILLED then FILLED else PARTIALLY_FILLED,
      quote.filledQuantity, quote.fillPrice, realized - commission,
      if commission > 0.0 then Some(commission) else None)
  }

  /** Marks the filled symbol, recomputes the totals and appends the order. */
  function Settled(a: Account, symbol: string, marketPrice: real, order: PaperOrder): Account {
    var marked := a.(positions := a.positions[symbol := Marked(At(a.positions, symbol), marketPrice)]);
    Recomputed(marked).(orders := a.orders + [order], orderIdCounter := a.orderIdCounter + 1)
  }

  /** `placeOrder`, given the market price and the quote its awaited calls returned. */
  function Placed(
    dust: real, fees: Option<FeeModel>, a: Account, params: OrderParams, marketPrice: real, quote: ExecutionQuote)
    : (Account, Result<PaperOrder, Refusal>)
  {
    var symbol := ToUpper(params.symbol);
    if Precheck(params).Some? then (a, Err(Precheck(params).value))
    else if quote.status == REJECTED then (a, Err(ModelRejected))
    else if !(quote.filledQuantity > 0.0) then (a, Err(ZeroFill))
    else
      var a1 := WithPosition(a, symbol);
      var p := a1.positions[symbol];
      if RequiredMargin(p, params, quote) > a1.availableBalance + MARGIN_SLACK then (a1, Err(InsufficientBalance))
      else
        var effect := Filled(dust, p, params.side, quote.filledQuantity, quote.fillPrice, LeverageOf(params));
        var commission := Commission(fees, quote, ContextOf(params, marketPrice));
        var order := OrderOf(a1, params, quote, effect.realized, commission);
        (Settled(Booked(a1, symbol, effect, commission), symbol, marketPrice, order), Ok(order))
  }

  /** Which positions `updatePositions` marks: the open ones whose price feed answered. */
  predicate IsMarked(a: Account, prices: map<string, real>, symbol: string) {
    symbol in prices && At(a.positions, symbol).side != NONE
  }

  /** What a refresh makes of one symbol's position. */
  function RefreshedView(a: Account, prices: map<string, real>, symbol: string): Position
    requires symbol in a.positions
  {
    if IsMarked(a, prices, symbol) then Marked(a.positions[symbol], prices[symbol]) else a.positions[symbol]
  }

  function RefreshedPositions(a: Account, prices: map<string, real>): map<string, Position> {
    map symbol | symbol in a.positions :: RefreshedView(a, prices, symbol)
  }

  /** `updatePositions`, given the prices the feed answered with. */
  function Refreshed(a: Account, prices: map<string, real>): Account {
    Recomputed(a.(positions := RefreshedPositions(a, prices)))
  }
}
