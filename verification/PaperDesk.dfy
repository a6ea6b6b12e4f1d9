/**
 What the paper adapter refuses, shows and reports (src/execution/paper.ts), told from the request,
 the market and the account alone.
 */
module PaperDesk {
  import opened ExecutionBooks
  import opened PaperAccounting
  import opened PaperBackend
  import opened PaperModels
  import opened PaperMargin
  import opened StreamFills
  import opened Text
  import opened Wrappers

  // ---------------------------------------------------------------------------
  // Refusals
  // ---------------------------------------------------------------------------

  /** The order type asked for, in capitals; none asked for is a market order. */
  function AskedType(sub: Submission): string {
    match sub.orderType
    case None => "MARKET"
    case Some(text) => ToUpper(text)
  }

  /** A positive finite number. */
  predicate Usable(field: Field) {
    match field.number
    case NotFinite => false
    case Finite(x) => x > 0.0
  }

  /** The engine takes the order: the market answers, and the order is well formed, filled and affordable. */
  predicate Fills(desk: Desk, sub: Submission, market: Market) {
    && market.Quoted? && market.quote.status != REJECTED && market.quote.filledQuantity > 0.0
    && sub.quantity.number.Finite?
    && !TooDear(desk.account, At(desk.account.positions, ToUpper(sub.symbol)), ParamsOf(sub), market.quote)
  }

  /**
   Which error an order meets: no id, an unknown type, a quantity or a limit that is no positive
   number, in this order; and whatever the engine throws is -2019. Everything else is filled.
   */
  lemma RefusedWith(cfg: Config, desk: Desk, cid: string, sub: Submission, market: Market)
    requires PaperFills.Shape(At(desk.account.positions, ToUpper(sub.symbol)))
    ensures var reply, kind := Create(cfg, desk, cid, sub, market).reply, AskedType(sub);
            var named := cid != "" && (kind == "MARKET" || kind == "LIMIT");
            var sized := Usable(sub.quantity) && (kind == "LIMIT" ==> sub.price.Some? && Usable(sub.price.value));
            && (reply == ApiFailure(-1102) <==> cid == "")
            && (reply == ApiFailure(-1116) <==> cid != "" && kind != "MARKET" && kind != "LIMIT")
            && (reply == ApiFailure(-1013) <==> named && !sized)
            && (reply == ApiFailure(-2019) <==> named && sized && !Fills(desk, sub, market))
            && (reply.OrderReply? <==> named && sized && Fills(desk, sub, market))
  {
    if sub.quantity.number.Finite? && market.Quoted? {
      RefusedIff(cfg.dust, cfg.fees, desk.account, ParamsOf(sub), market.price, market.quote);
      ParamsAsked(sub);
    }
    assert TypeOf(sub) == AskedType(sub);
    hide PaperAccounting.Placed, ShapeOf, ReportOf, TooDear, PaperFills.Shape, ToUpper;
  }

  /** The order the engine is given. */
  lemma ParamsAsked(sub: Submission)
    requires sub.quantity.number.Finite?
    ensures var params := ParamsOf(sub);
            && params.symbol == sub.symbol && params.side == sub.side && params.leverage.None?
            && params.quantity == sub.quantity.number.value
            && (params.orderType == LIMIT <==> AskedType(sub) == "LIMIT")
            && (sub.price.Some? && sub.price.value.number.Finite? ==>
                  params.price == Some(sub.price.value.number.value))
            && (params.price.Some? ==> sub.price.Some? && sub.price.value.number == Finite(params.price.value))
  {
    hide ToUpper;
  }

  // ---------------------------------------------------------------------------
  // What is shown and reported
  // ---------------------------------------------------------------------------

  /** The order is on the account's books as asked for and as quoted. */
  predicate Ordered(o: PaperOrder, a: Account, sub: Submission, quote: ExecutionQuote) {
    && o.orderId == a.orderIdCounter + 1 && o.symbol == ToUpper(sub.symbol) && o.side == sub.side
    && Finite(o.quantity) == sub.quantity.number && (o.orderType == LIMIT <==> AskedType(sub) == "LIMIT")
    && o.filledQuantity == quote.filledQuantity && o.avgFillPrice == quote.fillPrice
    && (o.status == FILLED <==> quote.status == FILLED)
  }

  /** A shape tells of an order: its id, status and totals, and one fill of all it filled. */
  predicate Shows(cfg: Config, shape: OrderShape, o: PaperOrder)
  {
    && shape.orderId == Some(o.orderId) && shape.status == (if o.status == FILLED then "FILLED" else "PARTIALLY_FILLED")
    && shape.executedQty == Some(cfg.show(o.filledQuantity)) && shape.avgPrice == Some(cfg.show(o.avgFillPrice))
    && shape.cumQuote == Some(cfg.show(o.avgFillPrice * o.filledQuantity))
    && |shape.fills| == 1
    && var f := shape.fills[0];
       && f.price == cfg.show(o.avgFillPrice) && f.quantity == cfg.show(o.filledQuantity) && f.tradeId.None?
       && (f.commission.Some? <==> o.commission.Some?)
       && (o.commission.Some? ==> f.commission == Some(cfg.show(o.commission.value)))
       && f.commissionAsset == if o.commission.Some? then Some(cfg.commissionAsset) else None
  }

  /** A report tells of an order: a trade of all it filled, and its totals. */
  predicate Reports(cfg: Config, r: Report, o: PaperOrder)
  {
    && r.orderId == Some(o.orderId) && r.status == (if o.status == FILLED then "FILLED" else "PARTIALLY_FILLED")
    && r.lastQty == r.executedQty == Some(cfg.show(o.filledQuantity))
    && r.lastPrice == r.avgPrice == Some(cfg.show(o.avgFillPrice))
    && r.cumQuote == Some(cfg.show(o.avgFillPrice * o.filledQuantity)) && r.tradeId.None?
    && r.commission == Some(if o.commission.Some? then cfg.show(o.commission.value) else "0")
    && r.commissionAsset == Some(cfg.commissionAsset)
  }

  /** An order that is filled is the account's last, on file under its id, shown and reported as it is. */
  lemma CreatedShows(cfg: Config, desk: Desk, cid: string, sub: Submission, market: Market)
    requires Create(cfg, desk, cid, sub, market).reply.OrderReply?
    ensures var a := Create(cfg, desk, cid, sub, market);
            var orders := a.desk.account.orders;
            && |orders| == |desk.account.orders| + 1 && orders[..|desk.account.orders|] == desk.account.orders
            && market.Quoted? && Ordered(orders[|desk.account.orders|], desk.account, sub, market.quote)
            && a.reply.shape.clientOrderId == cid
            && Shows(cfg, a.reply.shape, orders[|desk.account.orders|])
            && a.desk.orders == desk.orders[cid := OrderRecord(ToUpper(sub.symbol), a.reply.shape)]
            && a.report.Some? && a.report.value.clientOrderId == cid
            && Reports(cfg, a.report.value, orders[|desk.account.orders|])
  {
    CreatedFrom(cfg, desk, cid, sub, market);
    ParamsAsked(sub);
    OrderIsAsPlaced(cfg.dust, cfg.fees, desk.account, ParamsOf(sub), market.price, market.quote);
    LastOrder(cfg, desk.account, ParamsOf(sub), market.price, market.quote);
    var params := ParamsOf(sub);
    var o := PaperAccounting.Placed(cfg.dust, cfg.fees, desk.account, params, market.price, market.quote).1.value;
    assert o.status == FILLED || o.status == PARTIALLY_FILLED;
    OrderShown(cfg, cid, o);
    hide PaperAccounting.Placed, ShapeOf, ReportOf, ParamsOf, ToUpper, Shows, Reports, AskedType;
  }

  lemma OrderShown(cfg: Config, cid: string, o: PaperOrder)
    requires o.status == FILLED || o.status == PARTIALLY_FILLED
    ensures Shows(cfg, ShapeOf(cfg, cid, o), o) && ShapeOf(cfg, cid, o).clientOrderId == cid
    ensures Reports(cfg, ReportOf(cfg, cid, o), o) && ReportOf(cfg, cid, o).clientOrderId == cid
  {
    assert o.filledQuantity * o.avgFillPrice == o.avgFillPrice * o.filledQuantity;
  }

  lemma LastOrder(cfg: Config, a: Account, params: OrderParams, price: real, quote: ExecutionQuote)
    requires PaperAccounting.Placed(cfg.dust, cfg.fees, a, params, price, quote).1.Ok?
    ensures var (after, result) := PaperAccounting.Placed(cfg.dust, cfg.fees, a, params, price, quote);
            after.orders == a.orders + [result.value]
            && (result.value.status == FILLED || result.value.status == PARTIALLY_FILLED)
  {
    hide Filled, Marked, RequiredMargin, Commission, Across;
  }

  /** An order on file is found under its id and its symbol, whatever the case of the symbol, as it was shown. */
  lemma FoundIff(desk: Desk, symbol: string, cid: string)
    requires cid in desk.orders ==> ToUpper(desk.orders[cid].symbol) == desk.orders[cid].symbol
    ensures var found := cid in desk.orders && ToLower(desk.orders[cid].symbol) == ToLower(symbol);
            Fetch(desk, symbol, cid) == if found then OrderReply(desk.orders[cid].shape) else ApiFailure(-2013)
  {
    if cid in desk.orders {
      CaseFolds(desk.orders[cid].symbol);
    }
    CaseFolds(symbol);
    hide ToUpper, ToLower;
  }
}
