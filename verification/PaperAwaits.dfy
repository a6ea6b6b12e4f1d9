/**
 Orders and refreshes of the paper engine that overlap (src/paper/PaperTradingEngine.ts).

 A refresh asks for all its prices at once, marks a position whenever one of them arrives, and
 recomputes the totals at the end; orders may be booked in between, and several refreshes may be
 under way. An order changes nothing before the last of its awaits and is booked in one piece
 after it. So any overlap of calls is a sequence of the pieces below.
 */
module PaperAwaits {
  import opened PaperAccounting
  import opened PaperFills
  import opened PaperLedger
  import opened PaperModels
  import opened Sums
  import opened Wrappers

  datatype Piece =
    | OrderBooked(params: OrderParams, marketPrice: real, quote: ExecutionQuote)
    | PriceArrived(symbol: string, price: real)
    | RefreshEnded

  function Advance(cfg: Settings, a: Account, piece: Piece): Account {
    match piece
    case OrderBooked(params, marketPrice, quote) => Placed(cfg.dust, cfg.fees, a, params, marketPrice, quote).0
    case PriceArrived(symbol, price) =>
      if symbol in a.positions then a.(positions := a.positions[symbol := Marked(a.positions[symbol], price)]) else a
    case RefreshEnded => Recomputed(a)
  }

  function Played(cfg: Settings, initial: real, pieces: seq<Piece>): Account {
    if pieces == [] then Opening(initial)
    else Advance(cfg, Played(cfg, initial, pieces[..|pieces| - 1]), pieces[|pieces| - 1])
  }

  /** The uninterrupted operation a piece amounts to: a refresh of one symbol, or of none. */
  function OpOf(piece: Piece): Op {
    match piece
    case OrderBooked(params, marketPrice, quote) => PlaceOrder(params, marketPrice, quote)
    case PriceArrived(symbol, price) => UpdatePositions(map[symbol := price])
    case RefreshEnded => UpdatePositions(map[])
  }

  function OpsOf(pieces: seq<Piece>): (ops: seq<Op>)
    ensures |ops| == |pieces|
  {
    if pieces == [] then [] else OpsOf(pieces[..|pieces| - 1]) + [OpOf(pieces[|pieces| - 1])]
  }

  /** The account with its two totals left out. */
  function WithoutTotals(a: Account): Account {
    a.(unrealizedPnl := 0.0, totalWalletBalance := 0.0)
  }

  // ---------------------------------------------------------------------------
  // One piece
  // ---------------------------------------------------------------------------

  /** Recomputing forgets the totals that were there. */
  lemma RecomputedForgets(a: Account, b: Account)
    requires WithoutTotals(a) == WithoutTotals(b)
    ensures Recomputed(a) == Recomputed(b)
  {
    assert a.symbols == WithoutTotals(a).symbols && a.positions == WithoutTotals(a).positions;
    assert a.balance == WithoutTotals(a).balance;
    assert Recomputed(a) == WithoutTotals(a).(
      unrealizedPnl := Recomputed(a).unrealizedPnl, totalWalletBalance := Recomputed(a).totalWalletBalance);
    hide Across;
  }

  /** Nothing but the totals reads the totals: an order is refused or accepted without them. */
  lemma PlacedIgnoresTotals(cfg: Settings, a: Account, b: Account, op: Op)
    requires op.PlaceOrder? && WithoutTotals(a) == WithoutTotals(b)
    ensures var x := Placed(cfg.dust, cfg.fees, a, op.params, op.marketPrice, op.quote);
            var y := Placed(cfg.dust, cfg.fees, b, op.params, op.marketPrice, op.quote);
            && x.1 == y.1
            && WithoutTotals(x.0) == WithoutTotals(y.0)
            && (x.1.Ok? ==> x.0 == y.0)
  {
    hide Filled, Marked, Commission, RequiredMargin, Across;
  }

  lemma MarkingNothing(p: Position, price: real, mark: real)
    requires Shape(p) && p.side == NONE && p.unrealizedPnl == GainAt(p, mark)
    ensures Marked(p, price) == p
  {
  }

  /** Marking one position is refreshing it alone, totals aside. */
  lemma ArrivedIsRefresh(initial: real, h: History, symbol: string, price: real)
    requires Invariant(initial, h)
    ensures RefreshedPositions(h.account, map[symbol := price]) ==
            if symbol in h.account.positions then
              h.account.positions[symbol := Marked(h.account.positions[symbol], price)]
            else h.account.positions
  {
    var a := h.account;
    if symbol in a.positions {
      assert GainCarried(a.positions, h.marks, symbol) && Shape(a.positions[symbol]);
      if a.positions[symbol].side == NONE {
        MarkingNothing(a.positions[symbol], price, Mark(h.marks, symbol));
      }
    }
    hide *;
    RefreshedAlone(a, symbol, price);
  }

  lemma RefreshedAlone(a: Account, symbol: string, price: real)
    requires symbol in a.positions && a.positions[symbol].side == NONE ==>
               Marked(a.positions[symbol], price) == a.positions[symbol]
    ensures RefreshedPositions(a, map[symbol := price]) ==
            if symbol in a.positions then a.positions[symbol := Marked(a.positions[symbol], price)] else a.positions
  {
    hide Marked;
  }

  /** One piece takes the account, totals aside, where its operation takes the run. */
  lemma AdvanceIsStep(cfg: Settings, initial: real, a: Account, h: History, piece: Piece)
    requires Invariant(initial, h) && WithoutTotals(a) == WithoutTotals(h.account)
    ensures WithoutTotals(Advance(cfg, a, piece)) == WithoutTotals(Step(cfg, h, OpOf(piece)).account)
  {
    assert a.positions == WithoutTotals(a).positions == h.account.positions;
    match piece {
      case OrderBooked(_, _, _) =>
        PlacedIgnoresTotals(cfg, a, h.account, OpOf(piece));
        hide Placed, Invariant;
      case PriceArrived(symbol, price) =>
        ArrivedIsRefresh(initial, h, symbol, price);
        hide Invariant;
        ArrivedStep(cfg, a, h, symbol, price);
      case RefreshEnded =>
        hide Invariant;
        EndedStep(cfg, a, h);
    }
  }

  lemma ArrivedStep(cfg: Settings, a: Account, h: History, symbol: string, price: real)
    requires WithoutTotals(a) == WithoutTotals(h.account) && a.positions == h.account.positions
    requires RefreshedPositions(h.account, map[symbol := price]) ==
             if symbol in a.positions then a.positions[symbol := Marked(a.positions[symbol], price)] else a.positions
    ensures WithoutTotals(Advance(cfg, a, PriceArrived(symbol, price))) ==
            WithoutTotals(Step(cfg, h, UpdatePositions(map[symbol := price])).account)
  {
    hide RefreshedPositions, Marked, Across;
  }

  lemma EndedStep(cfg: Settings, a: Account, h: History)
    requires WithoutTotals(a) == WithoutTotals(h.account)
    ensures WithoutTotals(Advance(cfg, a, RefreshEnded)) == WithoutTotals(Step(cfg, h, UpdatePositions(map[])).account)
  {
    assert RefreshedPositions(h.account, map[]) == h.account.positions;
    hide RefreshedPositions, Across;
  }

  /** Whether a piece ends by recomputing the totals. */
  predicate Settles(cfg: Settings, a: Account, piece: Piece) {
    match piece
    case OrderBooked(params, marketPrice, quote) => Placed(cfg.dust, cfg.fees, a, params, marketPrice, quote).1.Ok?
    case PriceArrived(_, _) => false
    case RefreshEnded => true
  }

  lemma SettlesExactly(cfg: Settings, a: Account, b: Account, piece: Piece)
    requires WithoutTotals(a) == WithoutTotals(b) && Settles(cfg, a, piece)
    ensures Advance(cfg, a, piece) == Advance(cfg, b, piece)
  {
    if piece.OrderBooked? {
      PlacedIgnoresTotals(cfg, a, b, OpOf(piece));
    } else {
      RecomputedForgets(a, b);
    }
    hide Placed, Recomputed;
  }

  // ---------------------------------------------------------------------------
  // Every overlap
  // ---------------------------------------------------------------------------

  /**
   However orders and refreshes overlap, the account is that of a run without overlap, up to the
   two totals; and those agree too whenever a piece has just recomputed them.
   */
  lemma {:induction false} OverlapIsARun(cfg: Settings, initial: real, pieces: seq<Piece>)
    requires cfg.dust >= 0.0
    ensures var a, b := Played(cfg, initial, pieces), Run(cfg, initial, OpsOf(pieces)).account;
            WithoutTotals(a) == WithoutTotals(b)
    ensures pieces != [] ==>
              var last := |pieces| - 1;
              Settles(cfg, Played(cfg, initial, pieces[..last]), pieces[last]) ==>
                Played(cfg, initial, pieces) == Run(cfg, initial, OpsOf(pieces)).account
  {
    if pieces != [] {
      var front, piece := pieces[..|pieces| - 1], pieces[|pieces| - 1];
      OverlapIsARun(cfg, initial, front);
      RunKeeps(cfg, initial, OpsOf(front));
      var a, h := Played(cfg, initial, front), Run(cfg, initial, OpsOf(front));
      assert OpsOf(pieces)[..|front|] == OpsOf(front);
      assert Run(cfg, initial, OpsOf(pieces)) == Step(cfg, h, OpOf(piece));
      hide Run, Step, Invariant, Settles, Advance, WithoutTotals;
      AdvanceIsStep(cfg, initial, a, h, piece);
      if Settles(cfg, a, piece) {
        SettlesExactly(cfg, a, h.account, piece);
        SettledStep(cfg, initial, a, h, piece);
      }
    }
  }

  lemma SettledStep(cfg: Settings, initial: real, a: Account, h: History, piece: Piece)
    requires WithoutTotals(a) == WithoutTotals(h.account) && Settles(cfg, a, piece)
    ensures Advance(cfg, h.account, piece) == Step(cfg, h, OpOf(piece)).account
  {
    hide Placed, Recomputed;
    assert RefreshedPositions(h.account, map[]) == h.account.positions;
  }

  /** Every placement in an overlap is answered as in the run: same refusal or same order. */
  lemma OverlapAnswersAlike(cfg: Settings, initial: real, pieces: seq<Piece>, op: Op)
    requires cfg.dust >= 0.0 && op.PlaceOrder?
    ensures Placed(cfg.dust, cfg.fees, Played(cfg, initial, pieces), op.params, op.marketPrice, op.quote).1 ==
            Placed(cfg.dust, cfg.fees, Run(cfg, initial, OpsOf(pieces)).account, op.params, op.marketPrice, op.quote).1
  {
    OverlapIsARun(cfg, initial, pieces);
    PlacedIgnoresTotals(cfg, Played(cfg, initial, pieces), Run(cfg, initial, OpsOf(pieces)).account, op);
    hide *;
  }

  /** The balance with the profit carried by the positions is the cash ledger at any moment of an overlap. */
  lemma EquityInOverlap(cfg: Settings, initial: real, pieces: seq<Piece>)
    requires cfg.dust >= 0.0
    ensures var a, h := Played(cfg, initial, pieces), Run(cfg, initial, OpsOf(pieces));
            a.balance + Across(a.symbols, a.positions, UnrealizedOf) ==
            initial + RealSum(h.ledger, MarkedValue(h.marks))
  {
    var a, h := Played(cfg, initial, pieces), Run(cfg, initial, OpsOf(pieces));
    OverlapIsARun(cfg, initial, pieces);
    RunKeeps(cfg, initial, OpsOf(pieces));
    EquityIsLedger(cfg, initial, OpsOf(pieces));
    hide Run, Played, Across, RealSum, Structure, CashBalances, QuantitiesBalance;
    assert a.balance == WithoutTotals(a).balance == h.account.balance;
    assert a.symbols == WithoutTotals(a).symbols && a.positions == WithoutTotals(a).positions;
  }
}
