/**
 What holds of the paper account over every run.

 A run is any sequence of orders, accepted or refused, and price refreshes. Beside the account
 a history keeps a plain cash ledger, one line per accepted fill, and the last price each
 symbol was marked at. The ledger knows nothing of entry prices or averaging, yet it determines
 the account's equity.
 */
module PaperLedger {
  import opened PaperAccounting
  import opened PaperFills
  import opened PaperModels
  import opened Sums
  import opened Text
  import opened Wrappers

  /** One accepted fill: signed quantity and price, the dust it wiped off, and its fee. */
  datatype Line = Line(
    symbol: string,
    quantity: real,
    price: real,
    writtenOff: real,
    writtenOffPrice: real,
    commission: real)

  datatype History = History(account: Account, ledger: seq<Line>, marks: map<string, real>)

  datatype Op =
    | PlaceOrder(params: OrderParams, marketPrice: real, quote: ExecutionQuote)
    | UpdatePositions(prices: map<string, real>)

  /** The engine's settings: dust cutoff and fee model. */
  datatype Settings = Settings(dust: real, fees: Option<FeeModel>)

  function LineOf(cfg: Settings, a: Account, op: Op): Line
    requires op.PlaceOrder?
  {
    var symbol := ToUpper(op.params.symbol);
    var p := At(a.positions, symbol);
    Line(symbol,
         SignedFill(op.params.side, op.quote.filledQuantity),
         op.quote.fillPrice,
         Dropped(cfg.dust, p, op.params.side, op.quote.filledQuantity),
         p.entryPrice,
         Commission(cfg.fees, op.quote, ContextOf(op.params, op.marketPrice)))
  }

  function RefreshedMarks(h: History, prices: map<string, real>): map<string, real> {
    h.marks + map symbol | symbol in prices && IsMarked(h.account, prices, symbol) :: prices[symbol]
  }

  function Step(cfg: Settings, h: History, op: Op): History {
    match op
    case PlaceOrder(params, marketPrice, quote) =>
      var (a, result) := Placed(cfg.dust, cfg.fees, h.account, params, marketPrice, quote);
      if result.Ok? then
        History(a, h.ledger + [LineOf(cfg, h.account, op)], h.marks[ToUpper(params.symbol) := marketPrice])
      else
        h.(account := a)
    case UpdatePositions(prices) =>
      History(
        Refreshed(h.account, prices),
        h.ledger,
        RefreshedMarks(h, prices))
  }

  function Run(cfg: Settings, initial: real, ops: seq<Op>): History {
    if ops == [] then History(Opening(initial), [], map[])
    else Step(cfg, Run(cfg, initial, ops[..|ops| - 1]), ops[|ops| - 1])
  }

  // ---------------------------------------------------------------------------
  // Measures
  // ---------------------------------------------------------------------------

  function Mark(marks: map<string, real>, symbol: string): real {
    if symbol in marks then marks[symbol] else 0.0
  }

  /** Money in and out: what was paid or received, wiped dust at its entry price, the fee. */
  function CashFlow(l: Line): real {
    Worth(l.writtenOff, l.writtenOffPrice) - Worth(l.quantity, l.price) - l.commission
  }

  function Fee(l: Line): real {
    l.commission
  }

  function NetQuantity(l: Line): real {
    l.quantity - l.writtenOff
  }

  function NetOf(symbol: string): Line -> real {
    (l: Line) => if l.symbol == symbol then NetQuantity(l) else 0.0
  }

  /** What a line is worth at the mark, against the price it was made at. */
  function MarkedValue(marks: map<string, real>): Line -> real {
    (l: Line) => MarkedWorth(l, Mark(marks, l.symbol))
  }

  function MarkedWorth(l: Line, mark: real): real {
    Worth(l.quantity, mark - l.price) - Worth(l.writtenOff, mark - l.writtenOffPrice) - l.commission
  }

  /** The fill of a line alone: signed quantity times (mark minus fill price), less the fee. */
  function FillValue(marks: map<string, real>): Line -> real {
    (l: Line) => Worth(l.quantity, Mark(marks, l.symbol) - l.price) - l.commission
  }

  function MarginOf(p: Position): real {
    p.margin
  }

  function OrderPnl(o: PaperOrder): real {
    o.realizedPnl
  }

  // ---------------------------------------------------------------------------
  // Invariants
  // ---------------------------------------------------------------------------

  ghost predicate Structure(h: History) {
    var a := h.account;
    && Distinct(a.symbols)
    && (forall s :: s in a.symbols <==> s in a.positions)
    && (forall s :: s in a.positions ==> Shape(a.positions[s]))
    && (forall l :: l in h.ledger ==> l.symbol in a.symbols)
  }

  /** Cash is what flowed in and out; what is missing sits in open positions at book value. */
  ghost predicate CashBalances(initial: real, h: History) {
    h.account.balance ==
    initial + RealSum(h.ledger, CashFlow) + Across(h.account.symbols, h.account.positions, BookValue)
  }

  /** Every position is the sum of its signed fills, less wiped dust. */
  ghost predicate QuantitiesBalance(h: History) {
    forall s :: Signed(At(h.account.positions, s)) == RealSum(h.ledger, NetOf(s))
  }

  ghost predicate GainCarried(positions: map<string, Position>, marks: map<string, real>, s: string) {
    At(positions, s).unrealizedPnl == GainAt(At(positions, s), Mark(marks, s))
  }

  /** Unrealized profit is carried at the last mark. */
  ghost predicate MarksBalance(h: History) {
    && (forall s :: GainCarried(h.account.positions, h.marks, s))
    && h.account.unrealizedPnl == Across(h.account.symbols, h.account.positions, UnrealizedOf)
    && h.account.totalWalletBalance == h.account.balance + h.account.unrealizedPnl
  }

  /** Available balance and margins make up the balance and the fees that were not charged to it. */
  ghost predicate MarginsBalance(h: History) {
    h.account.availableBalance + Across(h.account.symbols, h.account.positions, MarginOf)
    == h.account.balance + RealSum(h.ledger, Fee)
  }

  /** The balance moves with realized profit only, and that is what the orders booked. */
  ghost predicate ProfitBalances(initial: real, h: History) {
    && h.account.balance == initial + h.account.realizedPnl
    && h.account.realizedPnl == RealSum(h.account.orders, OrderPnl)
  }

  ghost predicate Invariant(initial: real, h: History) {
    && Structure(h)
    && CashBalances(initial, h)
    && QuantitiesBalance(h)
    && MarksBalance(h)
    && MarginsBalance(h)
    && ProfitBalances(initial, h)
  }

  // ---------------------------------------------------------------------------
  // Sums across positions
  // ---------------------------------------------------------------------------

  lemma AcrossSame(
    symbols: seq<string>, before: map<string, Position>, after: map<string, Position>, f: Position -> real)
    requires forall s :: s in symbols ==> f(At(after, s)) == f(At(before, s))
    ensures Across(symbols, after, f) == Across(symbols, before, f)
  {
    RealSumSame(symbols, Each(before, f), Each(after, f));
  }

  lemma AcrossNew(symbols: seq<string>, positions: map<string, Position>, symbol: string, f: Position -> real)
    requires symbol !in positions && f(EMPTY) == 0.0
    ensures Across(symbols + [symbol], positions[symbol := EMPTY], f) == Across(symbols, positions, f)
  {
    var after := positions[symbol := EMPTY];
    RealSumAppend(symbols, symbol, Each(after, f));
    assert Each(after, f)(symbol) == f(At(after, symbol)) == f(EMPTY);
    AcrossSame(symbols, positions, after, f);
  }

  lemma AcrossChange(
    symbols: seq<string>, positions: map<string, Position>, symbol: string, p: Position, f: Position -> real)
    requires Distinct(symbols) && symbol in symbols && symbol in positions
    ensures Across(symbols, positions[symbol := p], f) == Across(symbols, positions, f) - f(positions[symbol]) + f(p)
  {
    var after := positions[symbol := p];
    forall s | s in symbols && s != symbol ensures Each(positions, f)(s) == Each(after, f)(s) {
      assert At(after, s) == At(positions, s);
    }
    RealSumChange(symbols, Each(positions, f), Each(after, f), symbol);
    assert Each(after, f)(symbol) == f(At(after, symbol));
    assert Each(positions, f)(symbol) == f(At(positions, symbol));
  }

  // ---------------------------------------------------------------------------
  // A new empty position
  // ---------------------------------------------------------------------------

  lemma WithPositionAt(a: Account, symbol: string)
    ensures symbol in WithPosition(a, symbol).positions
    ensures forall s :: At(WithPosition(a, symbol).positions, s) == At(a.positions, s)
  {
  }

  lemma WithPositionAcross(a: Account, symbol: string, f: Position -> real)
    requires f(EMPTY) == 0.0
    ensures var b := WithPosition(a, symbol);
            Across(b.symbols, b.positions, f) == Across(a.symbols, a.positions, f)
  {
    if symbol !in a.positions {
      AcrossNew(a.symbols, a.positions, symbol, f);
    }
  }

  lemma WithPositionStructure(h: History, symbol: string)
    requires Structure(h)
    ensures Structure(h.(account := WithPosition(h.account, symbol)))
  {
  }

  lemma EmptyMeasures(p: Position)
    requires p == EMPTY
    ensures BookValue(p) == 0.0 && MarginOf(p) == 0.0 && UnrealizedOf(p) == 0.0
  {
  }

  lemma WithPositionTotals(a: Account, symbol: string)
    ensures var b := WithPosition(a, symbol);
            && Across(b.symbols, b.positions, BookValue) == Across(a.symbols, a.positions, BookValue)
            && Across(b.symbols, b.positions, MarginOf) == Across(a.symbols, a.positions, MarginOf)
            && Across(b.symbols, b.positions, UnrealizedOf) == Across(a.symbols, a.positions, UnrealizedOf)
  {
    EmptyMeasures(EMPTY);
    hide *;
    WithPositionAcross(a, symbol, BookValue);
    WithPositionAcross(a, symbol, MarginOf);
    WithPositionAcross(a, symbol, UnrealizedOf);
  }

  lemma WithPositionGains(h: History, symbol: string)
    requires MarksBalance(h) && Structure(h)
    ensures MarksBalance(h.(account := WithPosition(h.account, symbol)))
  {
    hide Worth, BookValue, GainAt, RealSum;
    WithPositionAt(h.account, symbol);
    WithPositionTotals(h.account, symbol);
    forall s ensures GainCarried(WithPosition(h.account, symbol).positions, h.marks, s) {
      assert GainCarried(h.account.positions, h.marks, s);
    }
  }

  lemma WithPositionQuantities(h: History, symbol: string)
    requires QuantitiesBalance(h)
    ensures QuantitiesBalance(h.(account := WithPosition(h.account, symbol)))
  {
    hide Signed, RealSum;
    WithPositionAt(h.account, symbol);
    forall s ensures Signed(At(WithPosition(h.account, symbol).positions, s)) == RealSum(h.ledger, NetOf(s)) {
      assert Signed(At(h.account.positions, s)) == RealSum(h.ledger, NetOf(s));
    }
  }

  lemma WithPositionKeeps(initial: real, h: History, symbol: string)
    requires Invariant(initial, h)
    ensures Invariant(initial, h.(account := WithPosition(h.account, symbol)))
  {
    WithPositionStructure(h, symbol);
    WithPositionGains(h, symbol);
    WithPositionQuantities(h, symbol);
    WithPositionCash(initial, h, symbol);
    hide WithPosition, Structure, QuantitiesBalance, MarksBalance, CashBalances, MarginsBalance, ProfitBalances;
  }

  lemma WithPositionCash(initial: real, h: History, symbol: string)
    requires CashBalances(initial, h) && MarginsBalance(h) && ProfitBalances(initial, h)
    ensures var g := h.(account := WithPosition(h.account, symbol));
            CashBalances(initial, g) && MarginsBalance(g) && ProfitBalances(initial, g)
  {
    WithPositionTotals(h.account, symbol);
    hide RealSum, Across;
  }

  // ---------------------------------------------------------------------------
  // An accepted fill
  // ---------------------------------------------------------------------------

  /** One accepted fill: the histories around it, and the position it leaves, marked. */
  datatype Booking = Booking(before: History, after: History, line: Line, prior: Position, left: Position)

  /** `after` is `before` with one position, its totals, one line and one order added. */
  ghost predicate Books(b: Booking, realized: real, availableDelta: real) {
    var a, c := b.before.account, b.after.account;
    var symbol := b.line.symbol;
    && symbol in a.positions && a.positions[symbol] == b.prior
    && c.symbols == a.symbols
    && c.positions == a.positions[symbol := b.left]
    && c.balance == a.balance + realized - b.line.commission
    && c.availableBalance == a.availableBalance + availableDelta
    && c.realizedPnl == a.realizedPnl + realized - b.line.commission
    && b.after.ledger == b.before.ledger + [b.line]
    && c.unrealizedPnl == Across(c.symbols, c.positions, UnrealizedOf)
    && c.totalWalletBalance == c.balance + c.unrealizedPnl
    && (exists o :: c.orders == a.orders + [o] && o.realizedPnl == realized - b.line.commission)
  }

  lemma BookingKeepsCash(initial: real, b: Booking, realized: real, availableDelta: real)
    requires Structure(b.before) && Books(b, realized, availableDelta)
    requires realized - b.line.commission == BookValue(b.left) - BookValue(b.prior) + CashFlow(b.line)
    requires CashBalances(initial, b.before)
    ensures CashBalances(initial, b.after)
  {
    AcrossChange(b.before.account.symbols, b.before.account.positions, b.line.symbol, b.left, BookValue);
    RealSumAppend(b.before.ledger, b.line, CashFlow);
  }

  lemma BookingKeepsMargins(b: Booking, realized: real, availableDelta: real)
    requires Structure(b.before) && Books(b, realized, availableDelta)
    requires availableDelta == realized + b.prior.margin - b.left.margin
    requires MarginsBalance(b.before)
    ensures MarginsBalance(b.after)
  {
    AcrossChange(b.before.account.symbols, b.before.account.positions, b.line.symbol, b.left, MarginOf);
    RealSumAppend(b.before.ledger, b.line, Fee);
  }

  lemma BookingKeepsProfit(initial: real, b: Booking, realized: real, availableDelta: real)
    requires Books(b, realized, availableDelta) && ProfitBalances(initial, b.before)
    ensures ProfitBalances(initial, b.after)
  {
    var a, c := b.before.account, b.after.account;
    var o :| c.orders == a.orders + [o] && o.realizedPnl == realized - b.line.commission;
    RealSumAppend(a.orders, o, OrderPnl);
  }

  lemma BookingKeepsQuantities(b: Booking, realized: real, availableDelta: real)
    requires Books(b, realized, availableDelta) && QuantitiesBalance(b.before)
    requires Signed(b.left) == Signed(b.prior) + NetQuantity(b.line)
    ensures QuantitiesBalance(b.after)
  {
    forall s ensures Signed(At(b.after.account.positions, s)) == RealSum(b.after.ledger, NetOf(s)) {
      RealSumAppend(b.before.ledger, b.line, NetOf(s));
      assert Signed(At(b.before.account.positions, s)) == RealSum(b.before.ledger, NetOf(s));
    }
  }

  lemma BookingKeepsMarks(b: Booking, realized: real, availableDelta: real, marketPrice: real)
    requires Books(b, realized, availableDelta) && MarksBalance(b.before)
    requires b.after.marks == b.before.marks[b.line.symbol := marketPrice]
    requires UnrealizedOf(b.left) == GainAt(b.left, marketPrice)
    ensures MarksBalance(b.after)
  {
    forall s ensures GainCarried(b.after.account.positions, b.after.marks, s) {
      if s == b.line.symbol {
        assert At(b.after.account.positions, s) == b.left && Mark(b.after.marks, s) == marketPrice;
      } else {
        assert GainCarried(b.before.account.positions, b.before.marks, s);
        assert At(b.after.account.positions, s) == At(b.before.account.positions, s);
        assert Mark(b.after.marks, s) == Mark(b.before.marks, s);
      }
    }
  }

  lemma PlacedKeeps(cfg: Settings, initial: real, h: History, op: Op)
    requires Invariant(initial, h) && cfg.dust >= 0.0 && op.PlaceOrder?
    ensures Invariant(initial, Step(cfg, h, op))
  {
    hide Invariant;
    WithPositionKeeps(initial, h, ToUpper(op.params.symbol));
    if Placed(cfg.dust, cfg.fees, h.account, op.params, op.marketPrice, op.quote).1.Ok? {
      AcceptedKeeps(cfg, initial, h, op);
    }
  }

  lemma AcceptedKeeps(cfg: Settings, initial: real, h: History, op: Op)
    requires cfg.dust >= 0.0 && op.PlaceOrder?
    requires Placed(cfg.dust, cfg.fees, h.account, op.params, op.marketPrice, op.quote).1.Ok?
    requires Invariant(initial, h.(account := WithPosition(h.account, ToUpper(op.params.symbol))))
    ensures Invariant(initial, Step(cfg, h, op))
  {
    var symbol := ToUpper(op.params.symbol);
    var h1 := h.(account := WithPosition(h.account, symbol));
    WithPositionAt(h.account, symbol);
    var p := h1.account.positions[symbol];
    var e := Filled(cfg.dust, p, op.params.side, op.quote.filledQuantity, op.quote.fillPrice, LeverageOf(op.params));
    var b := Booking(h1, Step(cfg, h, op), LineOf(cfg, h.account, op), p, Marked(e.position, op.marketPrice));
    AcceptedBooks(cfg, h, op, b, e);
    AcceptedConserves(cfg, h, op, p, e);
    hide *;
    BookingKeeps(initial, b, e.realized, e.availableDelta, op.marketPrice);
  }

  /** What `FillConserves` says of an accepted order, in terms of its ledger line. */
  lemma AcceptedConserves(cfg: Settings, h: History, op: Op, p: Position, e: FillEffect)
    requires cfg.dust >= 0.0 && op.PlaceOrder? && LeverageOf(op.params) != 0.0
    requires p == At(h.account.positions, ToUpper(op.params.symbol)) && Shape(p) && op.quote.filledQuantity > 0.0
    requires e == Filled(cfg.dust, p, op.params.side, op.quote.filledQuantity, op.quote.fillPrice,
             LeverageOf(op.params))
    ensures Conserves(LineOf(cfg, h.account, op), p, Marked(e.position, op.marketPrice), e.realized, e.availableDelta,
            op.marketPrice)
  {
    FillConserves(cfg.dust, p, op.params.side, op.quote.filledQuantity, op.quote.fillPrice, LeverageOf(op.params));
    MarkedProfit(e.position, op.marketPrice);
    hide Filled, Worth, Shape, Signed, SignedFill, Dropped, Marked;
  }

  /** The conservation laws of one booking. */
  ghost predicate Conserves(
    line: Line, p: Position, left: Position, realized: real, availableDelta: real, marketPrice: real) {
    && Shape(left)
    && Signed(left) == Signed(p) + NetQuantity(line)
    && realized - line.commission == BookValue(left) - BookValue(p) + CashFlow(line)
    && availableDelta == realized + p.margin - left.margin
    && UnrealizedOf(left) == GainAt(left, marketPrice)
  }

  lemma BookingKeeps(initial: real, b: Booking, realized: real, availableDelta: real, marketPrice: real)
    requires Invariant(initial, b.before) && Books(b, realized, availableDelta)
    requires b.after.marks == b.before.marks[b.line.symbol := marketPrice]
    requires Conserves(b.line, b.prior, b.left, realized, availableDelta, marketPrice)
    ensures Invariant(initial, b.after)
  {
    hide Worth, BookValue, GainAt, CashFlow, Books, Structure, CashBalances, MarginsBalance, MarksBalance,
         ProfitBalances;
    BookingKeepsCash(initial, b, realized, availableDelta);
    BookingKeepsMargins(b, realized, availableDelta);
    BookingKeepsProfit(initial, b, realized, availableDelta);
    BookingKeepsQuantities(b, realized, availableDelta);
    BookingKeepsMarks(b, realized, availableDelta, marketPrice);
    BookingKeepsStructure(b, realized, availableDelta);
  }

  lemma BookingKeepsStructure(b: Booking, realized: real, availableDelta: real)
    requires Books(b, realized, availableDelta) && Structure(b.before) && Shape(b.left)
    ensures Structure(b.after)
  {
  }

  lemma AcceptedBooks(cfg: Settings, h: History, op: Op, b: Booking, e: FillEffect)
    requires op.PlaceOrder? && Placed(cfg.dust, cfg.fees, h.account, op.params, op.marketPrice, op.quote).1.Ok?
    requires LeverageOf(op.params) != 0.0
    requires var symbol := ToUpper(op.params.symbol);
             var a := WithPosition(h.account, symbol);
             && b.before == h.(account := a) && symbol in a.positions && b.prior == a.positions[symbol]
             && b.after == Step(cfg, h, op) && b.line == LineOf(cfg, h.account, op)
             && e == Filled(cfg.dust, b.prior, op.params.side, op.quote.filledQuantity, op.quote.fillPrice,
                LeverageOf(op.params))
             && b.left == Marked(e.position, op.marketPrice)
    ensures Books(b, e.realized, e.availableDelta)
    ensures b.after.marks == b.before.marks[b.line.symbol := op.marketPrice]
  {
    var o := OrderOf(b.before.account, op.params, op.quote, e.realized, b.line.commission);
    assert b.after.account.orders == b.before.account.orders + [o];
    assert b.after.account.positions == b.before.account.positions[b.line.symbol := b.left];
  }

  // ---------------------------------------------------------------------------
  // A price refresh
  // ---------------------------------------------------------------------------

  lemma RefreshedPosition(h: History, prices: map<string, real>, s: string)
    requires Shape(At(h.account.positions, s)) && GainCarried(h.account.positions, h.marks, s)
    ensures var p, q := At(h.account.positions, s), At(Refreshed(h.account, prices).positions, s);
            && Shape(q) && Signed(q) == Signed(p) && BookValue(q) == BookValue(p) && q.margin == p.margin
            && GainCarried(Refreshed(h.account, prices).positions, RefreshedMarks(h, prices), s)
  {
    var p := At(h.account.positions, s);
    hide Worth, BookValue, GainAt;
    if IsMarked(h.account, prices, s) {
      MarkedProfit(p, prices[s]);
      assert Mark(RefreshedMarks(h, prices), s) == prices[s];
      assert At(Refreshed(h.account, prices).positions, s) == Marked(p, prices[s]);
    } else {
      assert At(Refreshed(h.account, prices).positions, s) == p;
      assert Mark(RefreshedMarks(h, prices), s) == Mark(h.marks, s);
    }
  }

  lemma RefreshKeeps(cfg: Settings, initial: real, h: History, prices: map<string, real>)
    requires Invariant(initial, h)
    ensures Invariant(initial, Step(cfg, h, UpdatePositions(prices)))
  {
    var g := Step(cfg, h, UpdatePositions(prices));
    var a, c := h.account, g.account;
    hide Worth, BookValue, GainAt, GainCarried, Signed;
    forall s
      ensures Signed(At(c.positions, s)) == Signed(At(a.positions, s))
      ensures BookValue(At(c.positions, s)) == BookValue(At(a.positions, s))
      ensures At(c.positions, s).margin == At(a.positions, s).margin
      ensures Shape(At(c.positions, s))
      ensures GainCarried(c.positions, g.marks, s)
    {
      assert GainCarried(a.positions, h.marks, s);
      RefreshedPosition(h, prices, s);
    }
    AcrossSame(a.symbols, a.positions, c.positions, BookValue);
    AcrossSame(a.symbols, a.positions, c.positions, MarginOf);
    RefreshKeepsStructure(h, g);
    RefreshKeepsQuantities(h, g);
  }

  lemma RefreshKeepsQuantities(h: History, g: History)
    requires QuantitiesBalance(h) && g.ledger == h.ledger
    requires forall s :: Signed(At(g.account.positions, s)) == Signed(At(h.account.positions, s))
    ensures QuantitiesBalance(g)
  {
    forall s ensures Signed(At(g.account.positions, s)) == RealSum(g.ledger, NetOf(s)) {
      assert Signed(At(h.account.positions, s)) == RealSum(h.ledger, NetOf(s));
    }
  }

  lemma RefreshKeepsStructure(h: History, g: History)
    requires Structure(h) && g.ledger == h.ledger
    requires g.account.symbols == h.account.symbols && g.account.positions.Keys == h.account.positions.Keys
    requires forall s :: Shape(At(g.account.positions, s))
    ensures Structure(g)
  {
    assert forall s :: s in g.account.positions ==> g.account.positions[s] == At(g.account.positions, s);
  }

  // ---------------------------------------------------------------------------
  // Every run
  // ---------------------------------------------------------------------------

  lemma StepKeeps(cfg: Settings, initial: real, h: History, op: Op)
    requires Invariant(initial, h) && cfg.dust >= 0.0
    ensures Invariant(initial, Step(cfg, h, op))
  {
    match op {
      case PlaceOrder(_, _, _) => PlacedKeeps(cfg, initial, h, op);
      case UpdatePositions(prices) => RefreshKeeps(cfg, initial, h, prices);
    }
  }

  lemma {:induction false} RunKeeps(cfg: Settings, initial: real, ops: seq<Op>)
    requires cfg.dust >= 0.0
    ensures Invariant(initial, Run(cfg, initial, ops))
  {
    if ops != [] {
      RunKeeps(cfg, initial, ops[..|ops| - 1]);
      StepKeeps(cfg, initial, Run(cfg, initial, ops[..|ops| - 1]), ops[|ops| - 1]);
    }
  }

  // ---------------------------------------------------------------------------
  // Equity
  // ---------------------------------------------------------------------------

  function Equity(h: History): real {
    h.account.balance + h.account.unrealizedPnl
  }

  /** The net quantity of a line at the mark of its symbol. */
  function NetWorth(marks: map<string, real>): Line -> real {
    (l: Line) => Worth(NetQuantity(l), Mark(marks, l.symbol))
  }

  /** The net quantity of a symbol in the ledger at its mark. */
  function Holding(ledger: seq<Line>, marks: map<string, real>): string -> real {
    (s: string) => Worth(RealSum(ledger, NetOf(s)), Mark(marks, s))
  }

  lemma MarkedWorthSplits(l: Line, mark: real)
    ensures MarkedWorth(l, mark) == CashFlow(l) + Worth(NetQuantity(l), mark)
  {
    ProductOfDifference(mark, l.price, l.quantity);
    ProductOfDifference(mark, l.writtenOffPrice, l.writtenOff);
    ProductOfDifference(l.quantity, l.writtenOff, mark);
  }

  lemma LedgerSplits(ledger: seq<Line>, marks: map<string, real>)
    ensures RealSum(ledger, MarkedValue(marks)) == RealSum(ledger, CashFlow) + RealSum(ledger, NetWorth(marks))
  {
    forall l | l in ledger ensures MarkedValue(marks)(l) == CashFlow(l) + NetWorth(marks)(l) {
      MarkedWorthSplits(l, Mark(marks, l.symbol));
      hide Worth, CashFlow, MarkedWorth;
    }
    RealSumAdd(ledger, CashFlow, NetWorth(marks), MarkedValue(marks));
  }

  lemma WorthAdds(a: real, b: real, price: real)
    ensures Worth(a + b, price) == Worth(a, price) + Worth(b, price)
  {
  }

  lemma HoldingGrows(ledger: seq<Line>, l: Line, marks: map<string, real>, s: string)
    ensures Holding(ledger + [l], marks)(s) ==
            if s == l.symbol then Holding(ledger, marks)(s) + NetWorth(marks)(l) else Holding(ledger, marks)(s)
  {
    RealSumAppend(ledger, l, NetOf(s));
    WorthAdds(RealSum(ledger, NetOf(s)), NetQuantity(l), Mark(marks, s));
    hide Worth, RealSum, NetQuantity;
    assert NetOf(s)(l) == if s == l.symbol then NetQuantity(l) else 0.0;
  }

  /** Summing line by line and summing symbol by symbol come to the same. */
  lemma {:induction false} LinesBySymbol(symbols: seq<string>, ledger: seq<Line>, marks: map<string, real>)
    requires Distinct(symbols) && forall l :: l in ledger ==> l.symbol in symbols
    ensures RealSum(ledger, NetWorth(marks)) == RealSum(symbols, Holding(ledger, marks))
  {
    if ledger == [] {
      NothingHeld(symbols, marks);
    } else {
      var front, last := ledger[..|ledger| - 1], ledger[|ledger| - 1];
      assert ledger == front + [last];
      assert last in ledger;
      LinesBySymbol(symbols, front, marks);
      forall s ensures Holding(ledger, marks)(s) ==
                       if s == last.symbol then Holding(front, marks)(s) + NetWorth(marks)(last)
                       else Holding(front, marks)(s)
      {
        HoldingGrows(front, last, marks, s);
      }
      hide Holding, NetWorth;
      RealSumChange(symbols, Holding(front, marks), Holding(ledger, marks), last.symbol);
      RealSumAppend(front, last, NetWorth(marks));
    }
  }

  lemma {:induction false} NothingHeld(symbols: seq<string>, marks: map<string, real>)
    ensures RealSum(symbols, Holding([], marks)) == 0.0
  {
    if symbols != [] {
      NothingHeld(symbols[..|symbols| - 1], marks);
      WorthOfNothing(Mark(marks, symbols[|symbols| - 1]));
    }
  }

  lemma WorthOfNothing(price: real)
    ensures Worth(0.0, price) == 0.0
  {
  }

  /** Unrealized profit and book value of a position come to its ledger quantity at the mark. */
  lemma GainOfPosition(p: Position, mark: real, net: real)
    requires p.unrealizedPnl == GainAt(p, mark) && Signed(p) == net
    ensures Worth(net, mark) == p.unrealizedPnl + BookValue(p)
  {
  }

  lemma EachAt(positions: map<string, Position>, f: Position -> real, s: string)
    ensures Each(positions, f)(s) == f(At(positions, s))
  {
  }

  lemma HoldingAt(ledger: seq<Line>, marks: map<string, real>, s: string)
    ensures Holding(ledger, marks)(s) == Worth(RealSum(ledger, NetOf(s)), Mark(marks, s))
  {
  }

  lemma GainIsHolding(h: History, s: string)
    requires GainCarried(h.account.positions, h.marks, s)
    requires Signed(At(h.account.positions, s)) == RealSum(h.ledger, NetOf(s))
    ensures Holding(h.ledger, h.marks)(s)
            == Each(h.account.positions, UnrealizedOf)(s) + Each(h.account.positions, BookValue)(s)
  {
    hide Worth, At, Signed, RealSum;
    GainOfPosition(At(h.account.positions, s), Mark(h.marks, s), RealSum(h.ledger, NetOf(s)));
    EachAt(h.account.positions, UnrealizedOf, s);
    EachAt(h.account.positions, BookValue, s);
    HoldingAt(h.ledger, h.marks, s);
    hide *;
  }

  lemma GainsAreHoldings(h: History)
    requires QuantitiesBalance(h) && MarksBalance(h)
    ensures h.account.unrealizedPnl + Across(h.account.symbols, h.account.positions, BookValue)
            == RealSum(h.account.symbols, Holding(h.ledger, h.marks))
  {
    var a := h.account;
    hide Worth, Holding, Each, RealSum, GainCarried, Signed;
    forall s | s in a.symbols
      ensures Holding(h.ledger, h.marks)(s) == Each(a.positions, UnrealizedOf)(s) + Each(a.positions, BookValue)(s)
    {
      assert GainCarried(a.positions, h.marks, s);
      assert Signed(At(a.positions, s)) == RealSum(h.ledger, NetOf(s));
      GainIsHolding(h, s);
    }
    RealSumAdd(a.symbols, Each(a.positions, UnrealizedOf), Each(a.positions, BookValue), Holding(h.ledger, h.marks));
  }

  /**
   Equity is the initial balance plus, for every fill, its signed quantity times (mark minus
   fill price), less its fee, less what wiped dust was worth: the entry prices, the averaging and
   the split between realized and unrealized profit have dropped out.
   */
  lemma EquityIsLedger(cfg: Settings, initial: real, ops: seq<Op>)
    requires cfg.dust >= 0.0
    ensures var h := Run(cfg, initial, ops);
            Equity(h) == initial + RealSum(h.ledger, MarkedValue(h.marks))
  {
    var h := Run(cfg, initial, ops);
    RunKeeps(cfg, initial, ops);
    LedgerSplits(h.ledger, h.marks);
    LinesBySymbol(h.account.symbols, h.ledger, h.marks);
    GainsAreHoldings(h);
  }

  /** No dust was wiped off by this line. */
  predicate Clean(l: Line) {
    l.writtenOff == 0.0
  }

  /** No fill of the ledger wiped any dust. */
  predicate AllClean(ledger: seq<Line>) {
    forall l :: l in ledger ==> Clean(l)
  }

  /** Where no dust was wiped, that is the plain sum over the fills. */
  lemma EquityWithoutDust(cfg: Settings, initial: real, ops: seq<Op>)
    requires cfg.dust >= 0.0 && AllClean(Run(cfg, initial, ops).ledger)
    ensures var h := Run(cfg, initial, ops);
            Equity(h) == initial + RealSum(h.ledger, FillValue(h.marks))
  {
    var h := Run(cfg, initial, ops);
    EquityIsLedger(cfg, initial, ops);
    hide Run;
    forall l | l in h.ledger ensures MarkedValue(h.marks)(l) == FillValue(h.marks)(l) {
      assert Clean(l);
      CleanLine(l, h.marks);
    }
    hide *;
    RealSumSame(h.ledger, MarkedValue(h.marks), FillValue(h.marks));
  }

  lemma CleanLine(l: Line, marks: map<string, real>)
    requires Clean(l)
    ensures MarkedValue(marks)(l) == FillValue(marks)(l)
  {
    WorthOfNothing(Mark(marks, l.symbol) - l.writtenOffPrice);
    hide Worth;
  }

  // ---------------------------------------------------------------------------
  // The same orders in another order
  // ---------------------------------------------------------------------------

  /** What a fill is by itself, whatever position it met. */
  datatype Trade = Trade(symbol: string, quantity: real, price: real, commission: real)

  function TradeOf(l: Line): Trade {
    Trade(l.symbol, l.quantity, l.price, l.commission)
  }

  function Trades(ledger: seq<Line>): seq<Trade> {
    if ledger == [] then [] else Trades(ledger[..|ledger| - 1]) + [TradeOf(ledger[|ledger| - 1])]
  }

  function TradeValue(marks: map<string, real>): Trade -> real {
    (t: Trade) => Worth(t.quantity, Mark(marks, t.symbol) - t.price) - t.commission
  }

  /** What the dust that a fill wiped has become worth. */
  function DustValue(marks: map<string, real>): Line -> real {
    (l: Line) => Worth(l.writtenOff, Mark(marks, l.symbol) - l.writtenOffPrice)
  }

  lemma {:induction false} SumOfTrades(ledger: seq<Line>, marks: map<string, real>)
    ensures RealSum(ledger, FillValue(marks)) == RealSum(Trades(ledger), TradeValue(marks))
  {
    hide Worth;
    if ledger != [] {
      var front, last := ledger[..|ledger| - 1], ledger[|ledger| - 1];
      SumOfTrades(front, marks);
      assert FillValue(marks)(last) == TradeValue(marks)(TradeOf(last));
      hide FillValue, TradeValue, TradeOf;
      RealSumAppend(Trades(front), TradeOf(last), TradeValue(marks));
    }
  }

  /** The worth of an account and of the dust it lost. */
  function EquityWithDust(h: History): real {
    Equity(h) + RealSum(h.ledger, DustValue(h.marks))
  }

  /** With the dust it lost, an account is worth what its trades come to at the marks. */
  lemma EquityIsTrades(cfg: Settings, initial: real, ops: seq<Op>)
    requires cfg.dust >= 0.0
    ensures var h := Run(cfg, initial, ops);
            EquityWithDust(h) == initial + RealSum(Trades(h.ledger), TradeValue(h.marks))
  {
    var h := Run(cfg, initial, ops);
    EquityIsLedger(cfg, initial, ops);
    SumOfTrades(h.ledger, h.marks);
    hide Run, MarkedValue, DustValue, FillValue, TradeValue, RealSum, Trades;
    forall l | l in h.ledger ensures FillValue(h.marks)(l) == MarkedValue(h.marks)(l) + DustValue(h.marks)(l) {
      LineValue(l, h.marks);
    }
    RealSumAdd(h.ledger, MarkedValue(h.marks), DustValue(h.marks), FillValue(h.marks));
  }

  lemma LineValue(l: Line, marks: map<string, real>)
    ensures FillValue(marks)(l) == MarkedValue(marks)(l) + DustValue(marks)(l)
  {
    hide Worth;
  }

  lemma NoDustLost(h: History)
    requires AllClean(h.ledger)
    ensures EquityWithDust(h) == Equity(h)
  {
    forall l | l in h.ledger ensures DustValue(h.marks)(l) == 0.0 {
      assert Clean(l);
      WorthOfNothing(Mark(h.marks, l.symbol) - l.writtenOffPrice);
    }
    SumOfNothing(h.ledger, DustValue(h.marks));
  }

  lemma {:induction false} SumOfNothing<T>(s: seq<T>, f: T -> real)
    requires forall x :: x in s ==> f(x) == 0.0
    ensures RealSum(s, f) == 0.0
  {
    if s != [] {
      assert s[|s| - 1] in s;
      SumOfNothing(s[..|s| - 1], f);
    }
  }

  /**
   Two runs that made the same trades, in any order, and stand at the same marks are worth the
   same, dust included, whatever positions the trades met and however entry prices averaged. Where
   no dust was wiped the accounts themselves are worth the same.
   */
  lemma EquityIgnoresOrder(cfg: Settings, other: Settings, initial: real, ops: seq<Op>, others: seq<Op>)
    requires cfg.dust >= 0.0 && other.dust >= 0.0
    requires multiset(Trades(Run(cfg, initial, ops).ledger)) == multiset(Trades(Run(other, initial, others).ledger))
    requires Run(cfg, initial, ops).marks == Run(other, initial, others).marks
    ensures var g, h := Run(cfg, initial, ops), Run(other, initial, others);
            && EquityWithDust(g) == EquityWithDust(h)
            && (AllClean(g.ledger) && AllClean(h.ledger) ==> Equity(g) == Equity(h))
  {
    var g, h := Run(cfg, initial, ops), Run(other, initial, others);
    EquityIsTrades(cfg, initial, ops);
    EquityIsTrades(other, initial, others);
    hide *;
    RealSumPermutation(Trades(g.ledger), Trades(h.ledger), TradeValue(g.marks));
    if AllClean(g.ledger) && AllClean(h.ledger) {
      NoDustLost(g);
      NoDustLost(h);
    }
  }

  /** The trade an order makes if it is accepted. */
  function TradeAsked(cfg: Settings, op: Op): seq<Trade> {
    match op
    case UpdatePositions(_) => []
    case PlaceOrder(params, marketPrice, quote) =>
      [Trade(ToUpper(params.symbol), SignedFill(params.side, quote.filledQuantity), quote.fillPrice,
             Commission(cfg.fees, quote, ContextOf(params, marketPrice)))]
  }

  function TradesAsked(cfg: Settings, ops: seq<Op>): seq<Trade> {
    if ops == [] then [] else TradesAsked(cfg, ops[..|ops| - 1]) + TradeAsked(cfg, ops[|ops| - 1])
  }

  /** Every order of the run is accepted. */
  ghost predicate AllAccepted(cfg: Settings, initial: real, ops: seq<Op>) {
    forall k :: 0 <= k < |ops| && ops[k].PlaceOrder? ==> Accepts(cfg, Run(cfg, initial, ops[..k]), ops[k])
  }

  predicate Accepts(cfg: Settings, h: History, op: Op)
    requires op.PlaceOrder?
  {
    Placed(cfg.dust, cfg.fees, h.account, op.params, op.marketPrice, op.quote).1.Ok?
  }

  lemma TradeAdded(cfg: Settings, h: History, op: Op)
    requires op.PlaceOrder? ==> Accepts(cfg, h, op)
    ensures Trades(Step(cfg, h, op).ledger) == Trades(h.ledger) + TradeAsked(cfg, op)
  {
    if op.PlaceOrder? {
      var l := LineOf(cfg, h.account, op);
      assert Step(cfg, h, op).ledger == h.ledger + [l] by {
        hide LineOf, Placed;
      }
      hide Step, Placed, Dropped, Commission;
      assert (h.ledger + [l])[..|h.ledger|] == h.ledger;
      assert TradeAsked(cfg, op) == [TradeOf(l)];
    }
  }

  lemma {:induction false} TradesAreAsked(cfg: Settings, initial: real, ops: seq<Op>)
    requires AllAccepted(cfg, initial, ops)
    ensures Trades(Run(cfg, initial, ops).ledger) == TradesAsked(cfg, ops)
  {
    if ops != [] {
      var front, op := ops[..|ops| - 1], ops[|ops| - 1];
      hide Accepts, Step;
      forall k | 0 <= k < |front| && front[k].PlaceOrder?
        ensures Accepts(cfg, Run(cfg, initial, front[..k]), front[k])
      {
        assert front[..k] == ops[..k] && front[k] == ops[k];
      }
      TradesAreAsked(cfg, initial, front);
      TradeAdded(cfg, Run(cfg, initial, front), op);
    }
  }

  lemma {:induction false} AskedWithout(cfg: Settings, ops: seq<Op>, k: nat)
    requires k < |ops|
    ensures multiset(TradesAsked(cfg, ops)) ==
            multiset(TradesAsked(cfg, ops[..k] + ops[k + 1..])) + multiset(TradeAsked(cfg, ops[k]))
  {
    var front, last := ops[..|ops| - 1], ops[|ops| - 1];
    hide TradeAsked;
    assert ops == front + [last];
    AskedOneMore(cfg, front, last);
    WithoutBeforeLast(front, last, k);
    hide TradesAsked;
    if k < |front| {
      AskedWithout(cfg, front, k);
      AskedOneMore(cfg, front[..k] + front[k + 1..], last);
    }
  }

  lemma WithoutBeforeLast<T>(front: seq<T>, last: T, k: nat)
    requires k <= |front|
    ensures var all := front + [last];
            if k == |front| then all[k] == last && all[..k] + all[k + 1..] == front
            else all[k] == front[k] && all[..k] + all[k + 1..] == front[..k] + front[k + 1..] + [last]
  {
  }

  lemma AskedOneMore(cfg: Settings, front: seq<Op>, op: Op)
    ensures TradesAsked(cfg, front + [op]) == TradesAsked(cfg, front) + TradeAsked(cfg, op)
  {
    assert (front + [op])[..|front|] == front;
    hide TradeAsked;
  }

  lemma {:induction false} AskedPermutation(cfg: Settings, ops: seq<Op>, others: seq<Op>)
    requires multiset(ops) == multiset(others)
    ensures multiset(TradesAsked(cfg, ops)) == multiset(TradesAsked(cfg, others))
  {
    if ops == [] {
      assert |multiset(others)| == 0;
    } else {
      var k := PermutationSplit(ops, others);
      AskedWithout(cfg, others, k);
      AskedPermutation(cfg, ops[..|ops| - 1], others[..k] + others[k + 1..]);
    }
  }

  /**
   So the order of the orders makes no difference: the same orders and refreshes in two sequences,
   every order accepted in both, and the same marks in the end, leave accounts of the same worth.
   */
  lemma ReorderedOrdersAreWorthTheSame(cfg: Settings, initial: real, ops: seq<Op>, others: seq<Op>)
    requires cfg.dust >= 0.0 && multiset(ops) == multiset(others)
    requires AllAccepted(cfg, initial, ops) && AllAccepted(cfg, initial, others)
    requires Run(cfg, initial, ops).marks == Run(cfg, initial, others).marks
    ensures EquityWithDust(Run(cfg, initial, ops)) == EquityWithDust(Run(cfg, initial, others))
  {
    TradesAreAsked(cfg, initial, ops);
    TradesAreAsked(cfg, initial, others);
    AskedPermutation(cfg, ops, others);
    hide Run, Trades, TradesAsked, AllAccepted, EquityWithDust;
    EquityIgnoresOrder(cfg, cfg, initial, ops, others);
  }

  // ---------------------------------------------------------------------------
  // The order history
  // ---------------------------------------------------------------------------

  /** An order record tells the same story as its ledger line. */
  predicate Tells(o: PaperOrder, l: Line) {
    && o.symbol == l.symbol && o.filledQuantity > 0.0
    && SignedFill(o.side, o.filledQuantity) == l.quantity && o.avgFillPrice == l.price
    && o.commission == (if l.commission > 0.0 then Some(l.commission) else None)
  }

  ghost predicate HistoryTold(h: History) {
    && |h.account.orders| == |h.ledger|
    && h.account.orderIdCounter == 1_000_000 + |h.ledger|
    && (forall i :: 0 <= i < |h.ledger| ==>
          Tells(h.account.orders[i], h.ledger[i]) && h.account.orders[i].orderId == 1_000_001 + i)
  }

  lemma StepTold(cfg: Settings, h: History, op: Op)
    requires HistoryTold(h)
    ensures HistoryTold(Step(cfg, h, op))
  {
    hide Filled, Marked, Dropped, Commission, RequiredMargin, Across, RefreshedPositions;
  }

  /** The order history is the ledger: one order a fill, numbered in order, with its side, size, price and fee. */
  lemma {:induction false} OrdersTellTheLedger(cfg: Settings, initial: real, ops: seq<Op>)
    ensures HistoryTold(Run(cfg, initial, ops))
  {
    if ops != [] {
      var front := ops[..|ops| - 1];
      OrdersTellTheLedger(cfg, initial, front);
      hide HistoryTold, Step;
      StepTold(cfg, Run(cfg, initial, front), ops[|ops| - 1]);
    }
  }

  // ---------------------------------------------------------------------------
  // Dust, margins, refusals
  // ---------------------------------------------------------------------------

  lemma DroppedIsBounded(dust: real, p: Position, side: Side, quantity: real)
    requires dust >= 0.0
    ensures -dust <= Dropped(dust, p, side, quantity) <= dust
  {
  }

  lemma LedgerGrowth(cfg: Settings, h: History, op: Op)
    ensures Step(cfg, h, op).ledger == h.ledger
            || (op.PlaceOrder? && Step(cfg, h, op).ledger == h.ledger + [LineOf(cfg, h.account, op)])
  {
  }

  /** A fill never wipes more than the cutoff, and nothing at all at cutoff zero. */
  lemma {:induction false} DustIsBounded(cfg: Settings, initial: real, ops: seq<Op>)
    requires cfg.dust >= 0.0
    ensures forall l :: l in Run(cfg, initial, ops).ledger ==> -cfg.dust <= l.writtenOff <= cfg.dust
  {
    if ops != [] {
      DustIsBounded(cfg, initial, ops[..|ops| - 1]);
      var h := Run(cfg, initial, ops[..|ops| - 1]);
      var op := ops[|ops| - 1];
      LedgerGrowth(cfg, h, op);
      if op.PlaceOrder? {
        var p := At(h.account.positions, ToUpper(op.params.symbol));
        DroppedIsBounded(cfg.dust, p, op.params.side, op.quote.filledQuantity);
      }
    }
  }

  lemma {:induction false} NoFeesCharged(cfg: Settings, initial: real, ops: seq<Op>)
    requires cfg.fees.None?
    ensures RealSum(Run(cfg, initial, ops).ledger, Fee) == 0.0
  {
    if ops != [] {
      var h, op := Run(cfg, initial, ops[..|ops| - 1]), ops[|ops| - 1];
      NoFeesCharged(cfg, initial, ops[..|ops| - 1]);
      LedgerGrowth(cfg, h, op);
      if op.PlaceOrder? {
        RealSumAppend(h.ledger, LineOf(cfg, h.account, op), Fee);
      }
    }
  }

  /** The price paid or received for a fill, whichever way it went. */
  function Turnover(l: Line): real {
    Worth(if l.quantity < 0.0 then -l.quantity else l.quantity, l.price)
  }

  /** A rate in basis points of an amount. */
  function Charge(amount: real, bps: real): real {
    amount * (bps / 10_000.0)
  }

  lemma ChargeAdds(a: real, b: real, bps: real)
    ensures Charge(a + b, bps) == Charge(a, bps) + Charge(b, bps)
  {
  }

  lemma ChargeMonotone(amount: real, a: real, b: real)
    requires amount >= 0.0 && a <= b
    ensures Charge(amount, a) <= Charge(amount, b)
  {
  }

  lemma FilledIsPositive(cfg: Settings, h: History, op: Op)
    requires op.PlaceOrder? && Step(cfg, h, op).ledger != h.ledger
    ensures op.quote.filledQuantity > 0.0
  {
    hide Filled, Marked, Dropped, Commission, RequiredMargin, Across, LineOf;
  }

  /** `compute` of the flat schedule. */
  lemma FeeIsCharge(quote: ExecutionQuote, ctx: ExecutionContext, takerBps: real, makerBps: real)
    ensures Commission(Some(TakerMakerFee(takerBps, makerBps)), quote, ctx) ==
            Charge(Worth(quote.filledQuantity, quote.fillPrice), if ctx.orderType == MARKET then takerBps else makerBps)
  {
  }

  lemma TurnoverOfLine(cfg: Settings, h: History, op: Op)
    requires op.PlaceOrder? && op.quote.filledQuantity > 0.0
    ensures Turnover(LineOf(cfg, h.account, op)) == Worth(op.quote.filledQuantity, op.quote.fillPrice)
    ensures Fee(LineOf(cfg, h.account, op)) == Commission(cfg.fees, op.quote, ContextOf(op.params, op.marketPrice))
  {
    hide Worth, Dropped, Commission;
  }

  lemma WorthIsNonnegative(quantity: real, price: real)
    requires quantity >= 0.0 && price >= 0.0
    ensures Worth(quantity, price) >= 0.0
  {
  }

  /**
   What a flat schedule has charged after any run lies between the lower and the higher rate on
   everything turned over; at equal rates it is that rate exactly.
   */
  lemma {:induction false} FeesWithinRates(cfg: Settings, initial: real, ops: seq<Op>, takerBps: real, makerBps: real)
    requires cfg.fees == Some(TakerMakerFee(takerBps, makerBps))
    requires forall op :: op in ops && op.PlaceOrder? ==> op.quote.fillPrice >= 0.0
    ensures var ledger := Run(cfg, initial, ops).ledger;
            var total := RealSum(ledger, Turnover);
            Charge(total, Min(takerBps, makerBps)) <= RealSum(ledger, Fee) <= Charge(total, Max(takerBps, makerBps))
  {
    if ops != [] {
      var front, op := ops[..|ops| - 1], ops[|ops| - 1];
      var h := Run(cfg, initial, front);
      FeesWithinRates(cfg, initial, front, takerBps, makerBps);
      LedgerGrowth(cfg, h, op);
      assert Run(cfg, initial, ops) == Step(cfg, h, op);
      if Step(cfg, h, op).ledger != h.ledger {
        assert op in ops;
        var l := LineOf(cfg, h.account, op);
        FilledIsPositive(cfg, h, op);
        TurnoverOfLine(cfg, h, op);
        WorthIsNonnegative(op.quote.filledQuantity, op.quote.fillPrice);
        var ctx := ContextOf(op.params, op.marketPrice);
        FeeIsCharge(op.quote, ctx, takerBps, makerBps);
        hide Commission, Worth, Run, Step, LineOf, Turnover, Fee, RealSum, Charge, TakerMakerFee;
        FeesGrow(h.ledger, l, takerBps, makerBps, if ctx.orderType == MARKET then takerBps else makerBps);
      }
    }
  }

  lemma FeesGrow(ledger: seq<Line>, l: Line, takerBps: real, makerBps: real, bps: real)
    requires var total := RealSum(ledger, Turnover);
             Charge(total, Min(takerBps, makerBps)) <= RealSum(ledger, Fee) <= Charge(total, Max(takerBps, makerBps))
    requires Turnover(l) >= 0.0 && Fee(l) == Charge(Turnover(l), bps) && (bps == takerBps || bps == makerBps)
    ensures var total := RealSum(ledger + [l], Turnover);
            && Charge(total, Min(takerBps, makerBps)) <= RealSum(ledger + [l], Fee)
            && RealSum(ledger + [l], Fee) <= Charge(total, Max(takerBps, makerBps))
  {
    var low, high := Min(takerBps, makerBps), Max(takerBps, makerBps);
    hide Charge, RealSum, Turnover, Fee;
    RealSumAppend(ledger, l, Fee);
    RealSumAppend(ledger, l, Turnover);
    ChargeAdds(RealSum(ledger, Turnover), Turnover(l), low);
    ChargeAdds(RealSum(ledger, Turnover), Turnover(l), high);
    ChargeMonotone(Turnover(l), low, bps);
    ChargeMonotone(Turnover(l), bps, high);
  }

  /**
   Available balance and margins make up the balance plus all commissions ever charged: fees
   leave the balance but not the available balance. Without a fee model they make up the
   balance exactly.
   */
  lemma AvailablePlusMargins(cfg: Settings, initial: real, ops: seq<Op>)
    requires cfg.dust >= 0.0
    ensures var h := Run(cfg, initial, ops); var a := h.account;
            && a.availableBalance + Across(a.symbols, a.positions, MarginOf) == a.balance + RealSum(h.ledger, Fee)
            && (cfg.fees.None? ==> a.availableBalance + Across(a.symbols, a.positions, MarginOf) == a.balance)
  {
    RunKeeps(cfg, initial, ops);
    if cfg.fees.None? {
      NoFeesCharged(cfg, initial, ops);
    }
  }

  /** The balance moves with realized profit alone, and the orders add up to it. */
  lemma BalanceIsRealizedProfit(cfg: Settings, initial: real, ops: seq<Op>)
    requires cfg.dust >= 0.0
    ensures var a := Run(cfg, initial, ops).account;
            a.balance - a.realizedPnl == initial && a.realizedPnl == RealSum(a.orders, OrderPnl)
  {
    RunKeeps(cfg, initial, ops);
  }

  /** Shape and signed quantity of every position, known or not, after every run. */
  lemma PositionsInEveryRun(cfg: Settings, initial: real, ops: seq<Op>, symbol: string)
    requires cfg.dust >= 0.0
    ensures var h := Run(cfg, initial, ops);
            && Shape(At(h.account.positions, symbol))
            && Signed(At(h.account.positions, symbol)) == RealSum(h.ledger, NetOf(symbol))
  {
    RunKeeps(cfg, initial, ops);
  }

  /** A refused order moves no balance, no position and no history; it may list an empty position. */
  lemma RefusalChangesNothing(cfg: Settings, h: History, op: Op, symbol: string)
    requires op.PlaceOrder?
    requires Placed(cfg.dust, cfg.fees, h.account, op.params, op.marketPrice, op.quote).1.Err?
    ensures var a := Step(cfg, h, op).account;
            && a == h.account.(symbols := a.symbols, positions := a.positions)
            && At(a.positions, symbol) == At(h.account.positions, symbol)
            && Step(cfg, h, op).ledger == h.ledger && Step(cfg, h, op).marks == h.marks
  {
    WithPositionAt(h.account, ToUpper(op.params.symbol));
  }
}
