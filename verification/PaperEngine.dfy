/**
 The paper simulator as the object it is (src/paper/PaperTradingEngine.ts): positions are
 records updated in place, balances are fields, orders are appended. Each method is proved to
 take the abstract account where the functions of PaperAccounting say, so the theorems of
 PaperLedger are theorems about the engine.
 */
module PaperEngine {
  import opened PaperAccounting
  import opened PaperAwaits
  import opened PaperLedger
  import opened PaperModels
  import opened Sums
  import opened Text
  import opened Wrappers

  class PaperPosition {
    const symbol: string
    var side: PositionSide
    var entryPrice: real
    var quantity: real
    var leverage: real
    var margin: real
    var unrealizedPnl: real

    function View(): Position
      reads this
    {
      Position(side, entryPrice, quantity, leverage, margin, unrealizedPnl)
    }

    constructor (symbol: string)
      ensures this.symbol == symbol && View() == EMPTY
    {
      this.symbol := symbol;
      side, entryPrice, quantity := NONE, 0.0, 0.0;
      leverage, margin, unrealizedPnl := 1.0, 0.0, 0.0;
    }
  }

  /** Settling is recomputing the totals with the position marked, and appending the order. */
  lemma SettledTotals(a: Account, symbol: string, marketPrice: real, order: PaperOrder, totals: Account)
    requires totals == Recomputed(a.(positions := a.positions[symbol := Marked(At(a.positions, symbol), marketPrice)]))
    ensures Settled(a, symbol, marketPrice, order) ==
            totals.(orders := totals.orders + [order], orderIdCounter := totals.orderIdCounter + 1)
  {
    hide Marked, Across;
  }

  class PaperTradingEngine {
    const dust: real
    const feeModel: Option<FeeModel>
    var balance: real
    var availableBalance: real
    var totalWalletBalance: real
    var realizedPnl: real
    var unrealizedPnl: real
    var symbols: seq<string>
    var positions: map<string, PaperPosition>
    var orders: seq<PaperOrder>
    var orderIdCounter: int

    /** Every position is filed under its own symbol, so no two symbols share one. */
    ghost predicate Valid()
      reads this, positions.Values
    {
      && (forall s :: s in positions ==> positions[s].symbol == s)
      && Distinct(symbols)
      && (forall s :: s in symbols <==> s in positions)
    }

    function Views(): map<string, Position>
      reads this, positions.Values
    {
      map s | s in positions :: positions[s].View()
    }

    ghost function State(): Account
      reads this, positions.Values
    {
      Account(balance, availableBalance, totalWalletBalance, realizedPnl, unrealizedPnl,
              symbols, Views(), orders, orderIdCounter)
    }

    constructor (initialBalance: real, feeModel: Option<FeeModel>, dust: real)
      ensures Valid() && State() == Opening(initialBalance)
      ensures this.feeModel == feeModel && this.dust == dust
    {
      this.dust := dust;
      this.feeModel := feeModel;
      balance, availableBalance, totalWalletBalance := initialBalance, initialBalance, initialBalance;
      realizedPnl, unrealizedPnl := 0.0, 0.0;
      symbols, positions, orders := [], map[], [];
      orderIdCounter := 1_000_000;
    }

    method PositionFor(symbol: string) returns (position: PaperPosition)
      requires Valid()
      modifies this`symbols, this`positions
      ensures Valid() && State() == WithPosition(old(State()), symbol)
      ensures symbol in positions && positions[symbol] == position
      ensures forall s :: s in positions ==>
              (s in old(positions) && positions[s] == old(positions)[s]) || fresh(positions[s])
    {
      if symbol in positions {
        return positions[symbol];
      }
      ghost var views := Views();
      position := new PaperPosition(symbol);
      assert position.View() == EMPTY && Views() == views;
      positions := positions[symbol := position];
      assert Views() == views[symbol := EMPTY];
      symbols := symbols + [symbol];
    }

    method OpenExposure(position: PaperPosition, side: PositionSide, quantity: real, fillPrice: real, leverage: real)
      requires leverage != 0.0
      modifies position, this`availableBalance
      ensures var e := Opened(old(position.View()), side, quantity, fillPrice, leverage);
              position.View() == e.position && availableBalance == old(availableBalance) + e.availableDelta
    {
      var previousQty := position.quantity;
      var totalQty := previousQty + quantity;
      position.entryPrice :=
        if totalQty > 0.0 then (position.entryPrice * previousQty + fillPrice * quantity) / totalQty else fillPrice;
      var margin := quantity * fillPrice / leverage;
      ghost var e := Opened(old(position.View()), side, quantity, fillPrice, leverage);
      assert position.entryPrice == e.position.entryPrice && e.availableDelta == -margin;
      assert e.position == Position(side, position.entryPrice, totalQty, leverage, old(position.margin) + margin,
             old(position.unrealizedPnl));
      hide Opened;
      position.quantity := totalQty;
      position.side := side;
      position.leverage := leverage;
      position.margin := position.margin + margin;
      availableBalance := availableBalance - margin;
    }

    method ReduceExposure(position: PaperPosition, closeQty: real, fillPrice: real) returns (realized: real)
      modifies position, this`balance, this`realizedPnl, this`availableBalance
      ensures var e := Reduced(dust, old(position.View()), closeQty, fillPrice);
              && position.View() == e.position && realized == e.realized
              && balance == old(balance) + e.realized
              && realizedPnl == old(realizedPnl) + e.realized
              && availableBalance == old(availableBalance) + e.availableDelta
    {
      var direction := if position.side == LONG then 1.0 else -1.0;
      realized := (fillPrice - position.entryPrice) * closeQty * direction;

      var releasedMargin := if position.quantity > 0.0 then position.margin * (closeQty / position.quantity) else 0.0;
      assert realized == Profit(old(position.View()), closeQty, fillPrice);
      assert releasedMargin == Released(old(position.View()), closeQty);
      hide Profit, Released;
      position.margin := position.margin - releasedMargin;
      position.quantity := position.quantity - closeQty;

      balance := balance + realized;
      realizedPnl := realizedPnl + realized;
      availableBalance := availableBalance + (releasedMargin + realized);

      if position.quantity <= dust {
        position.quantity := 0.0;
        position.side := NONE;
        position.entryPrice := 0.0;
        position.unrealizedPnl := 0.0;
        availableBalance := availableBalance + position.margin;
        position.margin := 0.0;
      }
    }

    method ApplyFill(position: PaperPosition, side: Side, quantity: real, fillPrice: real, leverage: real)
      returns (realized: real)
      requires leverage != 0.0
      modifies position, this`balance, this`realizedPnl, this`availableBalance
      ensures var e := Filled(dust, old(position.View()), side, quantity, fillPrice, leverage);
              && position.View() == e.position && realized == e.realized
              && balance == old(balance) + e.realized
              && realizedPnl == old(realizedPnl) + e.realized
              && availableBalance == old(availableBalance) + e.availableDelta
    {
      var incoming := if side == BUY then LONG else SHORT;
      if position.side == NONE || position.quantity == 0.0 {
        OpenExposure(position, incoming, quantity, fillPrice, leverage);
        return 0.0;
      }
      if position.side == incoming {
        OpenExposure(position, incoming, quantity, fillPrice, leverage);
        return 0.0;
      }
      var closeQty := Min(quantity, position.quantity);
      realized := ReduceExposure(position, closeQty, fillPrice);
      var remainder := quantity - closeQty;
      if remainder > 0.0 {
        OpenExposure(position, incoming, remainder, fillPrice, leverage);
      }
    }

    method MarkToMarket(position: PaperPosition, price: real)
      modifies position`unrealizedPnl
      ensures position.View() == Marked(old(position.View()), price)
    {
      if position.side == NONE || position.quantity == 0.0 {
        position.unrealizedPnl := 0.0;
        return;
      }
      var direction := if position.side == LONG then 1.0 else -1.0;
      position.unrealizedPnl := (price - position.entryPrice) * position.quantity * direction;
    }

    method RecomputeTotals()
      requires Valid()
      modifies this`unrealizedPnl, this`totalWalletBalance
      ensures Valid() && State() == Recomputed(old(State()))
    {
      var sum := 0.0;
      for i := 0 to |symbols|
        invariant sum == RealSum(symbols[..i], Each(Views(), UnrealizedOf))
      {
        assert symbols[..i + 1][..i] == symbols[..i];
        assert symbols[i] in symbols;
        assert Each(Views(), UnrealizedOf)(symbols[i]) == UnrealizedOf(At(Views(), symbols[i]));
        sum := sum + positions[symbols[i]].unrealizedPnl;
      }
      assert symbols[..|symbols|] == symbols;
      unrealizedPnl := sum;
      totalWalletBalance := balance + sum;
      assert Views() == old(Views());
    }

    /** `placeOrder` behind its two awaits: the market price and the model's quote are given. */
    method PlaceOrder(params: OrderParams, marketPrice: real, quote: ExecutionQuote)
      returns (r: Result<PaperOrder, Refusal>)
      requires Valid()
      modifies this, positions.Values
      ensures Valid() && (State(), r) == Placed(dust, feeModel, old(State()), params, marketPrice, quote)
      ensures forall s :: s in positions ==> positions[s] in old(positions.Values) || fresh(positions[s])
    {
      hide Filled, Settled, Booked, RequiredMargin, Commission, OrderOf;
      var symbol := ToUpper(params.symbol);
      var leverage := if params.leverage.Some? then params.leverage.value else 1.0;
      if !(params.quantity > 0.0) {
        return Err(BadQuantity);
      }
      if leverage < 1.0 || leverage > 125.0 {
        return Err(BadLeverage);
      }
      if params.orderType == LIMIT && !(params.price.Some? && params.price.value > 0.0) {
        return Err(BadPrice);
      }
      if quote.status == REJECTED {
        return Err(ModelRejected);
      }
      if !(quote.filledQuantity > 0.0) {
        return Err(ZeroFill);
      }

      var position := PositionFor(symbol);
      var requiredMargin := MarginFor(position, params, quote, leverage);
      if requiredMargin > availableBalance + MARGIN_SLACK {
        return Err(InsufficientBalance);
      }

      r := Book(position, params, marketPrice, quote, leverage);
    }

    /** Only the quantity that opens or extends exposure consumes new margin. */
    method MarginFor(position: PaperPosition, params: OrderParams, quote: ExecutionQuote, leverage: real)
      returns (requiredMargin: real)
      requires leverage == LeverageOf(params) != 0.0
      ensures requiredMargin == RequiredMargin(position.View(), params, quote)
    {
      var opposing := (params.side == SELL && position.side == LONG) || (params.side == BUY && position.side == SHORT);
      var openingQty := if opposing then Max(0.0, quote.filledQuantity - position.quantity) else quote.filledQuantity;
      requiredMargin := openingQty * quote.fillPrice / leverage;
    }

    ghost predicate Files(position: PaperPosition)
      reads this
    {
      position.symbol in positions && positions[position.symbol] == position
    }

    /** The part of `placeOrder` behind the margin check. */
    method Book(position: PaperPosition, params: OrderParams, marketPrice: real, quote: ExecutionQuote, leverage: real)
      returns (r: Result<PaperOrder, Refusal>)
      requires Valid() && leverage == LeverageOf(params) != 0.0
      requires Files(position) && position.symbol == ToUpper(params.symbol)
      modifies this`balance, this`availableBalance, this`realizedPnl, this`unrealizedPnl, this`totalWalletBalance
      modifies this`orders, this`orderIdCounter, position
      ensures Valid() && r.Ok?
      ensures var symbol := ToUpper(params.symbol);
              var a := old(State());
              var e := Filled(dust, old(position.View()), params.side, quote.filledQuantity, quote.fillPrice, leverage);
              var commission := Commission(feeModel, quote, ContextOf(params, marketPrice));
              && r.value == OrderOf(a, params, quote, e.realized, commission)
              && State() == Settled(Booked(a, symbol, e, commission), symbol, marketPrice, r.value)
    {
      hide Filled, Marked, Recomputed, Booked, Settled;
      var realized, commission := BookFill(position, params, marketPrice, quote, leverage);
      var order := PaperOrder(
        orderIdCounter + 1, ToUpper(params.symbol), params.side, params.orderType, params.quantity,
        if quote.status == FILLED then FILLED else PARTIALLY_FILLED,
        quote.filledQuantity, quote.fillPrice, realized - commission,
        if commission > 0.0 then Some(commission) else None);
      Settle(position, marketPrice, order);
      r := Ok(order);
    }

    /** Applies the fill and charges the fee. */
    method BookFill(
      position: PaperPosition, params: OrderParams, marketPrice: real, quote: ExecutionQuote, leverage: real)
      returns (realized: real, commission: real)
      requires Valid() && Files(position) && leverage != 0.0
      modifies this`balance, this`availableBalance, this`realizedPnl, position
      ensures Valid()
      ensures var e := Filled(dust, old(position.View()), params.side, quote.filledQuantity, quote.fillPrice, leverage);
              && commission == Commission(feeModel, quote, ContextOf(params, marketPrice)) && realized == e.realized
              && State() == Booked(old(State()), position.symbol, e, commission)
    {
      hide Filled, ContextOf;
      ghost var views := Views();
      realized := ApplyFill(position, params.side, quote.filledQuantity, quote.fillPrice, leverage);
      assert Views() == views[position.symbol := position.View()];
      commission := 0.0;
      if feeModel.Some? {
        commission := feeModel.value(quote, ContextOf(params, marketPrice));
        balance := balance - commission;
        realizedPnl := realizedPnl - commission;
      }
      assert Views() == views[position.symbol := position.View()];
    }

    /** Marks the filled position and recomputes the totals. */
    method Remark(position: PaperPosition, marketPrice: real)
      requires Valid() && Files(position)
      modifies this`unrealizedPnl, this`totalWalletBalance, position
      ensures Valid()
      ensures var a := old(State());
              State() == Recomputed(a.(positions :=
                a.positions[position.symbol := Marked(At(a.positions, position.symbol), marketPrice)]))
    {
      hide Marked, Recomputed;
      ghost var a := State();
      MarkToMarket(position, marketPrice);
      assert Views() == a.positions[position.symbol := position.View()];
      RecomputeTotals();
    }

    /** Marks the filled position, recomputes the totals and appends the order. */
    method Settle(position: PaperPosition, marketPrice: real, order: PaperOrder)
      requires Valid() && Files(position)
      modifies this`unrealizedPnl, this`totalWalletBalance, this`orders, this`orderIdCounter, position
      ensures Valid() && State() == Settled(old(State()), position.symbol, marketPrice, order)
    {
      hide Marked, Recomputed;
      ghost var a := State();
      Remark(position, marketPrice);
      ghost var totals := State();
      SettledTotals(a, position.symbol, marketPrice, order, totals);
      Append(order);
    }

    method Append(order: PaperOrder)
      requires Valid()
      modifies this`orders, this`orderIdCounter
      ensures Valid()
      ensures State() == old(State()).(orders := old(orders) + [order], orderIdCounter := old(orderIdCounter) + 1)
    {
      orderIdCounter := orderIdCounter + 1;
      orders := orders + [order];
      assert Views() == old(Views());
    }

    /** Marks every open position whose price feed answered. */
    method MarkAll(prices: map<string, real>)
      requires Valid()
      modifies positions.Values
      ensures Valid()
      ensures forall s :: s in positions ==> positions[s].View() == RefreshedView(old(State()), prices, s)
    {
      hide Marked;
      ghost var a := State();
      for i := 0 to |symbols|
        invariant Valid()
        invariant forall j :: 0 <= j < i ==> positions[symbols[j]].View() == RefreshedView(a, prices, symbols[j])
        invariant forall j :: i <= j < |symbols| ==> positions[symbols[j]].View() == a.positions[symbols[j]]
      {
        assert symbols[i] in symbols;
        var symbol := symbols[i];
        var position := positions[symbol];
        if symbol in prices && position.side != NONE {
          MarkToMarket(position, prices[symbol]);
        }
      }
    }

    method UpdatePositions(prices: map<string, real>)
      requires Valid()
      modifies this`unrealizedPnl, this`totalWalletBalance, positions.Values
      ensures Valid() && State() == Refreshed(old(State()), prices)
    {
      hide Marked, Recomputed, RefreshedView, IsMarked;
      ghost var a := State();
      MarkAll(prices);
      assert Views() == RefreshedPositions(a, prices);
      assert State() == a.(positions := RefreshedPositions(a, prices));
      RecomputeTotals();
    }
  }

  /**
   Any sequence of calls on a fresh engine leaves it where the run of those operations says;
   with it goes everything PaperLedger proves of runs, such as the equity identity.
   */
  method AnyCalls(initial: real, cfg: Settings, ops: seq<Op>) returns (engine: PaperTradingEngine)
    requires cfg.dust >= 0.0
    ensures engine.Valid() && engine.State() == Run(cfg, initial, ops).account
    ensures var h := Run(cfg, initial, ops);
            engine.balance + engine.unrealizedPnl == initial + RealSum(h.ledger, MarkedValue(h.marks))
  {
    engine := new PaperTradingEngine(initial, cfg.fees, cfg.dust);
    for i := 0 to |ops|
      invariant fresh(engine) && engine.Valid()
      invariant forall s :: s in engine.positions ==> fresh(engine.positions[s])
      invariant engine.dust == cfg.dust && engine.feeModel == cfg.fees
      invariant engine.State() == Run(cfg, initial, ops[..i]).account
    {
      assert ops[..i + 1][..i] == ops[..i];
      hide Placed, Refreshed, LineOf, RefreshedMarks;
      match ops[i] {
        case PlaceOrder(params, marketPrice, quote) =>
          var _ := engine.PlaceOrder(params, marketPrice, quote);
        case UpdatePositions(prices) =>
          engine.UpdatePositions(prices);
      }
    }
    assert ops[..|ops|] == ops;
    EquityIsLedger(cfg, initial, ops);
  }

  /** Calls that overlap at their awaits leave the engine where the pieces they consist of say. */
  method OverlappingCalls(initial: real, cfg: Settings, pieces: seq<Piece>) returns (engine: PaperTradingEngine)
    requires cfg.dust >= 0.0
    ensures engine.Valid() && engine.State() == Played(cfg, initial, pieces)
    ensures WithoutTotals(engine.State()) == WithoutTotals(Run(cfg, initial, OpsOf(pieces)).account)
  {
    engine := new PaperTradingEngine(initial, cfg.fees, cfg.dust);
    for i := 0 to |pieces|
      invariant fresh(engine) && engine.Valid()
      invariant forall s :: s in engine.positions ==> fresh(engine.positions[s])
      invariant engine.dust == cfg.dust && engine.feeModel == cfg.fees
      invariant engine.State() == Played(cfg, initial, pieces[..i])
    {
      assert pieces[..i + 1][..i] == pieces[..i];
      hide Placed, Recomputed, Marked;
      match pieces[i] {
        case OrderBooked(params, marketPrice, quote) =>
          var _ := engine.PlaceOrder(params, marketPrice, quote);
        case PriceArrived(symbol, price) =>
          if symbol in engine.positions {
            ghost var views := engine.Views();
            engine.MarkToMarket(engine.positions[symbol], price);
            assert engine.Views() == views[symbol := Marked(views[symbol], price)];
          }
        case RefreshEnded =>
          engine.RecomputeTotals();
      }
    }
    assert pieces[..|pieces|] == pieces;
    OverlapIsARun(cfg, initial, pieces);
  }
}
