/** Contexts, quotes and fees of the paper simulator (src/paper/models.ts). */
module PaperModels {
  import opened Wrappers

  datatype Side = BUY | SELL

  datatype OrderType = MARKET | LIMIT

  datatype QuoteStatus = FILLED | PARTIALLY_FILLED | REJECTED

  datatype ExecutionContext = ExecutionContext(
    symbol: string,
    side: Side,
    orderType: OrderType,
    quantity: real,
    limitPrice: Option<real>,
    marketPrice: real)

  datatype ExecutionQuote = ExecutionQuote(fillPrice: real, filledQuantity: real, status: QuoteStatus)

  /** The mark for MARKET orders, the limit for LIMIT orders. */
  function ReferencePrice(ctx: ExecutionContext): real
    requires ctx.orderType == LIMIT ==> ctx.limitPrice.Some?
  {
    if ctx.orderType == MARKET then ctx.marketPrice else ctx.limitPrice.value
  }

  /** InstantFillModel: everything fills at the reference price. */
  function InstantFill(ctx: ExecutionContext): ExecutionQuote
    requires ctx.orderType == LIMIT ==> ctx.limitPrice.Some?
  {
    ExecutionQuote(ReferencePrice(ctx), ctx.quantity, FILLED)
  }

  /** A fee schedule gives the commission of a fill, in quote currency. */
  type FeeModel = (ExecutionQuote, ExecutionContext) -> real

  /** TakerMakerFeeModel: MARKET orders pay the taker rate, LIMIT orders the maker rate. */
  function TakerMakerFee(takerBps: real, makerBps: real): FeeModel {
    (quote: ExecutionQuote, ctx: ExecutionContext) =>
      var bps := if ctx.orderType == MARKET then takerBps else makerBps;
      quote.fillPrice * quote.filledQuantity * (bps / 10_000.0)
  }

  /** A market order fills at the mark and a limit order at its limit, in full. */
  lemma InstantFillsInFull(ctx: ExecutionContext)
    requires ctx.orderType == LIMIT ==> ctx.limitPrice.Some?
    ensures var quote := InstantFill(ctx);
            && quote.status == FILLED && quote.filledQuantity == ctx.quantity
            && (ctx.orderType == MARKET ==> quote.fillPrice == ctx.marketPrice)
            && (ctx.orderType == LIMIT ==> ctx.limitPrice == Some(quote.fillPrice))
  {
  }
}
