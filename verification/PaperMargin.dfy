/**
 What margin the paper engine locks and when it refuses an order
 (src/paper/PaperTradingEngine.ts), with leverage.
 */
module PaperMargin {
  import opened PaperAccounting
  import opened PaperFills
  import opened PaperLedger
  import opened PaperModels
  import opened Sums
  import opened Text
  import opened Wrappers

  // ---------------------------------------------------------------------------
  // One fill
  // ---------------------------------------------------------------------------

  /** How much of an order against a position only closes it. */
  function Closing(p: Position, side: Side, quantity: real): real {
    var against := if side == SELL then Max(0.0, Signed(p)) else Max(0.0, -Signed(p));
    Min(quantity, against)
  }

  /** So much margin was added at this leverage that it covers the amount. */
  predicate Locked(q: Position, before: real, amount: real, leverage: real) {
    (q.margin - before) * leverage == amount && q.leverage == leverage
  }

  /** Closing in part left the margin in proportion to the size; closing to dust left none. */
  predicate Shrunk(dust: real, p: Position, q: Position, closing: real) {
    && q.leverage == p.leverage
    && if p.quantity - closing <= dust then q.margin == 0.0 && q.quantity == 0.0 && q.entryPrice == 0.0
       else q.margin * p.quantity == p.margin * q.quantity && q.entryPrice == p.entryPrice
            && q.quantity == p.quantity - closing
  }

  /**
   What a fill does to the margin of its position, at any leverage: opening locks quantity times
   price over the leverage, on top of what extending finds; closing in part releases in proportion,
   and closing to dust all of it; a flip locks for the remainder alone.
   */
  lemma FillLocksMargin(dust: real, p: Position, side: Side, quantity: real, price: real, leverage: real)
    requires Shape(p) && dust >= 0.0 && quantity > 0.0 && leverage > 0.0
    ensures var q := Filled(dust, p, side, quantity, price, leverage).position;
            var closing := Closing(p, side, quantity);
            && (closing == 0.0 ==> Locked(q, p.margin, quantity * price, leverage))
            && (0.0 < closing == quantity ==> Shrunk(dust, p, q, closing))
            && (0.0 < closing < quantity ==> Locked(q, 0.0, (quantity - closing) * price, leverage))
  {
    var closing := Closing(p, side, quantity);
    hide Locked, Opened, Reduced;
    if Opens(p, side) {
      OpenedMargin(p, Incoming(side), quantity, price, leverage);
    } else {
      assert closing == Min(quantity, p.quantity) > 0.0;
      var left := Reduced(dust, p, closing, price).position;
      ReducedMargin(dust, p, closing, price);
      if closing < quantity {
        FlippedMargin(dust, p, side, quantity, price, leverage);
      }
      hide Shrunk;
    }
  }

  lemma FlippedMargin(dust: real, p: Position, side: Side, quantity: real, price: real, leverage: real)
    requires Shape(p) && dust >= 0.0 && leverage > 0.0 && !Opens(p, side) && p.quantity < quantity
    ensures var q := Filled(dust, p, side, quantity, price, leverage).position;
            Locked(q, 0.0, (quantity - p.quantity) * price, leverage)
  {
    var left, rest := Reduced(dust, p, p.quantity, price).position, quantity - p.quantity;
    assert left.margin == 0.0;
    assert Filled(dust, p, side, quantity, price, leverage).position ==
           Opened(left, Incoming(side), rest, price, leverage).position;
    OpenedMargin(left, Incoming(side), rest, price, leverage);
    hide *;
  }

  lemma OpenedMargin(p: Position, side: PositionSide, quantity: real, price: real, leverage: real)
    requires leverage > 0.0
    ensures Locked(Opened(p, side, quantity, price, leverage).position, p.margin, quantity * price, leverage)
  {
    QuotientBack(quantity * price, leverage);
  }

  lemma QuotientBack(x: real, d: real)
    requires d != 0.0
    ensures x / d * d == x
  {
  }

  lemma ReducedMargin(dust: real, p: Position, closing: real, price: real)
    requires Shape(p) && dust >= 0.0 && 0.0 < closing <= p.quantity
    ensures Shrunk(dust, p, Reduced(dust, p, closing, price).position, closing)
  {
    KeptShare(p.margin, closing, p.quantity);
  }

  lemma KeptShare(margin: real, closing: real, quantity: real)
    requires quantity != 0.0
    ensures (margin - margin * (closing / quantity)) * quantity == margin * (quantity - closing)
  {
    QuotientBack(closing, quantity);
    assert margin * (closing / quantity) * quantity == margin * (closing / quantity * quantity);
  }

  // ---------------------------------------------------------------------------
  // Every run at one leverage
  // ---------------------------------------------------------------------------

  /** The margin locked for a position, times its leverage, is its size at its entry price. */
  predicate Levered(p: Position, leverage: real) {
    p.margin * leverage == p.quantity * p.entryPrice && (p.side != NONE ==> p.leverage == leverage)
  }

  lemma OpenedLevered(p: Position, side: PositionSide, quantity: real, price: real, leverage: real)
    requires Levered(p, leverage) && p.quantity >= 0.0 && quantity > 0.0 && leverage > 0.0
    ensures Levered(Opened(p, side, quantity, price, leverage).position, leverage)
  {
    var q := Opened(p, side, quantity, price, leverage).position;
    OpenedMargin(p, side, quantity, price, leverage);
    QuotientBack(p.entryPrice * p.quantity + price * quantity, p.quantity + quantity);
    assert q.quantity * q.entryPrice == p.entryPrice * p.quantity + price * quantity;
    LeveredSum(q.margin, p.margin, leverage, quantity * price);
  }

  lemma LeveredSum(after: real, before: real, leverage: real, added: real)
    requires (after - before) * leverage == added
    ensures after * leverage == before * leverage + added
  {
  }

  lemma ReducedLevered(dust: real, p: Position, closing: real, price: real, leverage: real)
    requires Levered(p, leverage) && Shape(p) && dust >= 0.0 && 0.0 < closing <= p.quantity
    ensures Levered(Reduced(dust, p, closing, price).position, leverage)
  {
    var q := Reduced(dust, p, closing, price).position;
    ReducedMargin(dust, p, closing, price);
    if p.quantity - closing > dust {
      Proportional(q.margin, p.margin, q.quantity, p.quantity, leverage, p.entryPrice);
    }
    hide Reduced;
  }

  lemma Proportional(after: real, before: real, left: real, whole: real, leverage: real, entry: real)
    requires after * whole == before * left && before * leverage == whole * entry && whole != 0.0
    ensures after * leverage == left * entry
  {
    assert after * whole * leverage == before * left * leverage == (before * leverage) * left == whole * entry * left;
    assert (after * leverage - left * entry) * whole == 0.0;
  }

  lemma FilledLevered(dust: real, p: Position, side: Side, quantity: real, price: real, leverage: real)
    requires Levered(p, leverage) && Shape(p) && dust >= 0.0 && quantity > 0.0 && leverage > 0.0
    ensures Levered(Filled(dust, p, side, quantity, price, leverage).position, leverage)
  {
    if Opens(p, side) {
      OpenedLevered(p, Incoming(side), quantity, price, leverage);
    } else {
      var closing := Min(quantity, p.quantity);
      ReducedLevered(dust, p, closing, price, leverage);
      if quantity > closing {
        var left := Reduced(dust, p, closing, price).position;
        assert left.quantity >= 0.0;
        OpenedLevered(left, Incoming(side), quantity - closing, price, leverage);
      }
    }
    hide Opened, Reduced, Levered;
  }

  lemma MarkedLevered(p: Position, price: real, leverage: real)
    requires Levered(p, leverage)
    ensures Levered(Marked(p, price), leverage)
  {
  }

  /** The order asks for this leverage; one that asks for none is at leverage one. */
  predicate AsksFor(params: OrderParams, leverage: real) {
    params.leverage == Some(leverage) || (params.leverage.None? && leverage == 1.0)
  }

  ghost predicate OneLeverage(ops: seq<Op>, symbol: string, leverage: real) {
    forall op :: op in ops && op.PlaceOrder? && ToUpper(op.params.symbol) == symbol ==> AsksFor(op.params, leverage)
  }

  /** What an order leaves of the position of a symbol. */
  lemma PositionAfterOrder(cfg: Settings, h: History, op: Op, symbol: string)
    requires op.PlaceOrder?
    ensures var p, q := At(h.account.positions, symbol), At(Step(cfg, h, op).account.positions, symbol);
            || q == p
            || (&& ToUpper(op.params.symbol) == symbol && op.quote.filledQuantity > 0.0
                && LeverageOf(op.params) >= 1.0
                && q == Marked(
                          Filled(cfg.dust, p, op.params.side, op.quote.filledQuantity, op.quote.fillPrice,
                                 LeverageOf(op.params)).position,
                          op.marketPrice))
  {
    WithPositionAt(h.account, ToUpper(op.params.symbol));
    hide Filled, Marked, RequiredMargin, Commission, Across;
  }

  lemma OrderLevered(cfg: Settings, h: History, op: Op, symbol: string, leverage: real)
    requires op.PlaceOrder? && (ToUpper(op.params.symbol) == symbol ==> AsksFor(op.params, leverage))
    requires Levered(At(h.account.positions, symbol), leverage) && Shape(At(h.account.positions, symbol))
    requires cfg.dust >= 0.0 && leverage > 0.0
    ensures Levered(At(Step(cfg, h, op).account.positions, symbol), leverage)
  {
    var p, quote := At(h.account.positions, symbol), op.quote;
    PositionAfterOrder(cfg, h, op, symbol);
    assert ToUpper(op.params.symbol) == symbol ==> LeverageOf(op.params) == leverage;
    hide Step, Levered, Shape, AsksFor, LeverageOf, Filled, Marked, ToUpper;
    if ToUpper(op.params.symbol) == symbol && quote.filledQuantity > 0.0 {
      var filled := Filled(cfg.dust, p, op.params.side, quote.filledQuantity, quote.fillPrice, leverage).position;
      FilledLevered(cfg.dust, p, op.params.side, quote.filledQuantity, quote.fillPrice, leverage);
      MarkedLevered(filled, op.marketPrice, leverage);
    }
  }

  lemma RefreshedAt(cfg: Settings, h: History, prices: map<string, real>, symbol: string)
    ensures At(Step(cfg, h, UpdatePositions(prices)).account.positions, symbol) ==
            if symbol in h.account.positions && IsMarked(h.account, prices, symbol)
            then Marked(h.account.positions[symbol], prices[symbol]) else At(h.account.positions, symbol)
  {
    hide Marked, Across;
  }

  lemma RefreshLevered(cfg: Settings, h: History, prices: map<string, real>, symbol: string, leverage: real)
    requires Levered(At(h.account.positions, symbol), leverage)
    ensures Levered(At(Step(cfg, h, UpdatePositions(prices)).account.positions, symbol), leverage)
  {
    RefreshedAt(cfg, h, prices, symbol);
    hide Levered, Step, Marked;
    if symbol in h.account.positions && IsMarked(h.account, prices, symbol) {
      MarkedLevered(h.account.positions[symbol], prices[symbol], leverage);
    }
  }

  lemma StepLevered(cfg: Settings, initial: real, h: History, op: Op, symbol: string, leverage: real)
    requires Invariant(initial, h) && cfg.dust >= 0.0 && leverage > 0.0 && OneLeverage([op], symbol, leverage)
    requires Levered(At(h.account.positions, symbol), leverage)
    ensures Levered(At(Step(cfg, h, op).account.positions, symbol), leverage)
  {
    assert Shape(At(h.account.positions, symbol));
    assert op in [op];
    hide Invariant, Levered, Shape, Step, AsksFor;
    match op {
      case PlaceOrder(_, _, _) => OrderLevered(cfg, h, op, symbol, leverage);
      case UpdatePositions(prices) => RefreshLevered(cfg, h, prices, symbol, leverage);
    }
  }

  lemma OpeningLevered(initial: real, symbol: string, leverage: real)
    ensures Levered(At(Opening(initial).positions, symbol), leverage)
  {
  }

  lemma OneLeverageFront(front: seq<Op>, op: Op, symbol: string, leverage: real)
    requires OneLeverage(front + [op], symbol, leverage)
    ensures OneLeverage(front, symbol, leverage) && OneLeverage([op], symbol, leverage)
  {
    assert forall x :: x in front || x in [op] ==> x in front + [op];
    hide AsksFor;
  }

  lemma {:induction false} RunLevered(cfg: Settings, initial: real, ops: seq<Op>, symbol: string, leverage: real)
    requires cfg.dust >= 0.0 && leverage > 0.0 && OneLeverage(ops, symbol, leverage)
    ensures Levered(At(Run(cfg, initial, ops).account.positions, symbol), leverage)
  {
    if ops == [] {
      OpeningLevered(initial, symbol, leverage);
    } else {
      var front, op := ops[..|ops| - 1], ops[|ops| - 1];
      assert ops == front + [op];
      OneLeverageFront(front, op, symbol, leverage);
      hide Step, Invariant, Levered, OneLeverage;
      RunLevered(cfg, initial, front, symbol, leverage);
      RunKeeps(cfg, initial, front);
      StepLevered(cfg, initial, Run(cfg, initial, front), op, symbol, leverage);
    }
  }

  /**
   In every run whose orders on a symbol ask for one leverage, the margin locked for its position,
   times that leverage, is the size of the position at its entry price.
   */
  lemma MarginInEveryRun(cfg: Settings, initial: real, ops: seq<Op>, symbol: string, leverage: real)
    requires cfg.dust >= 0.0 && leverage > 0.0 && OneLeverage(ops, symbol, leverage)
    ensures var p := At(Run(cfg, initial, ops).account.positions, symbol);
            p.margin * leverage == p.quantity * p.entryPrice && (p.side != NONE ==> p.leverage == leverage)
  {
    RunLevered(cfg, initial, ops, symbol, leverage);
  }

  /** One unit bought at 100 from a balance of 1000 at leverage 10 locks 10. */
  lemma LeverageTenExample(cfg: Settings, symbol: string)
    requires cfg == Settings(0.0, None)
    ensures var op := PlaceOrder(OrderParams(symbol, BUY, MARKET, 1.0, None, Some(10.0)), 100.0,
                                 ExecutionQuote(100.0, 1.0, FILLED));
            var a := Run(cfg, 1000.0, [op]).account;
            At(a.positions, ToUpper(symbol)).margin == 10.0 && a.availableBalance == 990.0
  {
    var op := PlaceOrder(OrderParams(symbol, BUY, MARKET, 1.0, None, Some(10.0)), 100.0,
                         ExecutionQuote(100.0, 1.0, FILLED));
    var h := Run(cfg, 1000.0, []);
    assert [op][..0] == [];
    var e := Filled(0.0, EMPTY, BUY, 1.0, 100.0, 10.0);
    assert e.availableDelta == -10.0 && e.position.margin == 10.0;
    assert RequiredMargin(EMPTY, op.params, op.quote) == 10.0;
    hide Filled, RequiredMargin, Across;
    assert Run(cfg, 1000.0, [op]) == Step(cfg, h, op);
  }

  // ---------------------------------------------------------------------------
  // Refusals
  // ---------------------------------------------------------------------------

  /** The leverage an order asks for. */
  function Asked(params: OrderParams): real {
    match params.leverage
    case None => 1.0
    case Some(leverage) => leverage
  }

  /** The checks before the market is asked, in order. */
  predicate WellFormed(params: OrderParams) {
    && params.quantity > 0.0
    && 1.0 <= Asked(params) <= 125.0
    && (params.orderType == LIMIT ==> params.price.Some? && params.price.value > 0.0)
  }

  /**
   What an order fills beyond closing the position against it, at the fill price, exceeds its
   leverage times available balance and slack.
   */
  predicate TooDear(a: Account, p: Position, params: OrderParams, quote: ExecutionQuote) {
    (quote.filledQuantity - Closing(p, params.side, quote.filledQuantity)) * quote.fillPrice
    > Asked(params) * (a.availableBalance + 0.000000001)
  }

  lemma MarginCompare(amount: real, leverage: real, available: real)
    requires leverage > 0.0
    ensures amount / leverage > available <==> amount > leverage * available
  {
    QuotientBack(amount, leverage);
    if amount / leverage > available {
      assert amount / leverage * leverage > available * leverage;
    } else {
      assert amount / leverage * leverage <= available * leverage;
    }
  }

  lemma RequiredIsOpening(p: Position, params: OrderParams, quote: ExecutionQuote, a: Account)
    requires Shape(p) && quote.filledQuantity > 0.0 && Asked(params) >= 1.0
    ensures RequiredMargin(p, params, quote) > a.availableBalance + MARGIN_SLACK <==> TooDear(a, p, params, quote)
  {
    var opening := quote.filledQuantity - Closing(p, params.side, quote.filledQuantity);
    assert RequiredMargin(p, params, quote) == opening * quote.fillPrice / Asked(params);
    MarginCompare(opening * quote.fillPrice, Asked(params), a.availableBalance + MARGIN_SLACK);
  }

  /** Which refusal an order meets, each exactly when the earlier ones do not apply. */
  lemma RefusedIff(
    dust: real, fees: Option<FeeModel>, a: Account, params: OrderParams, marketPrice: real, quote: ExecutionQuote)
    requires Shape(At(a.positions, ToUpper(params.symbol)))
    ensures var r := Placed(dust, fees, a, params, marketPrice, quote).1;
            var p := At(a.positions, ToUpper(params.symbol));
            var usable := WellFormed(params) && quote.status != REJECTED && quote.filledQuantity > 0.0;
            && (r == Err(BadQuantity) <==> params.quantity <= 0.0)
            && (r == Err(BadLeverage) <==> params.quantity > 0.0 && !(1.0 <= Asked(params) <= 125.0))
            && (r == Err(BadPrice) <==>
                  && params.quantity > 0.0 && 1.0 <= Asked(params) <= 125.0
                  && params.orderType == LIMIT && !(params.price.Some? && params.price.value > 0.0))
            && (r == Err(ModelRejected) <==> WellFormed(params) && quote.status == REJECTED)
            && (r == Err(ZeroFill) <==>
                  WellFormed(params) && quote.status != REJECTED && quote.filledQuantity <= 0.0)
            && (r == Err(InsufficientBalance) <==> usable && TooDear(a, p, params, quote))
            && (r.Ok? <==> usable && !TooDear(a, p, params, quote))
  {
    var p := At(a.positions, ToUpper(params.symbol));
    assert At(WithPosition(a, ToUpper(params.symbol)).positions, ToUpper(params.symbol)) == p;
    if quote.filledQuantity > 0.0 && Asked(params) >= 1.0 {
      RequiredIsOpening(p, params, quote, a);
    }
    assert LeverageOf(params) == Asked(params);
    hide Filled, RequiredMargin, TooDear, Commission, PaperAccounting.Settled, Booked, OrderOf, Shape;
  }

  /** What the record of an accepted order says, beside its realized profit. */
  lemma OrderIsAsPlaced(
    dust: real, fees: Option<FeeModel>, a: Account, params: OrderParams, marketPrice: real, quote: ExecutionQuote)
    requires Placed(dust, fees, a, params, marketPrice, quote).1.Ok?
    ensures var o := Placed(dust, fees, a, params, marketPrice, quote).1.value;
            && o.orderId == a.orderIdCounter + 1 && o.symbol == ToUpper(params.symbol)
            && o.side == params.side && o.orderType == params.orderType && o.quantity == params.quantity
            && o.filledQuantity == quote.filledQuantity && o.avgFillPrice == quote.fillPrice
            && (o.status == FILLED <==> quote.status == FILLED)
            && (o.status == PARTIALLY_FILLED <==> quote.status == PARTIALLY_FILLED)
  {
    hide Filled, RequiredMargin, Commission, PaperAccounting.Settled, Booked;
  }
}
