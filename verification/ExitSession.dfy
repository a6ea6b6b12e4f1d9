/**
 The exit plan driving the paper engine (src/agent/exits.ts over
 src/paper/PaperTradingEngine.ts): every exit is a MARKET order against the position, and the
 plan books it only once the engine has filled it. Prices, refreshes and orders on other symbols
 happen in between.
 */
module ExitSession {
  import opened ExitPlan
  import opened PaperFills
  import opened PaperLedger
  import opened PaperModels
  import opened Sums
  import opened Text
  import opened Wrappers
  import Book = BookWalk
  import P = PaperAccounting

  datatype Session = Session(h: History, life: Life)

  datatype SessionEvent =
    | Price(price: real)
    | Exit(price: real, now: real, marketPrice: real, quote: ExecutionQuote)
    | Elsewhere(op: Op)

  function SideOf(dir: Dir): P.PositionSide {
    if dir == Dir.LONG then P.LONG else P.SHORT
  }

  /** The engine's position for the managed symbol. */
  function Held(s: Session): P.Position {
    P.At(s.h.account.positions, ToUpper(s.life.pos.symbol))
  }

  /** The order that closes part of a managed position. */
  function ExitOrder(pos: Managed, d: Decision, marketPrice: real, quote: ExecutionQuote): Op {
    PlaceOrder(
      P.OrderParams(pos.symbol, if pos.side == Dir.LONG then SELL else BUY, MARKET, d.quantity, None, None),
      marketPrice, quote)
  }

  function Outcome(cfg: Settings, h: History, op: Op): Result<P.PaperOrder, P.Refusal>
    requires op.PlaceOrder?
  {
    P.Placed(cfg.dust, cfg.fees, h.account, op.params, op.marketPrice, op.quote).1
  }

  function Next(cfg: Settings, profile: Profile, s: Session, e: SessionEvent): Session {
    match e
    case Price(price) => s.(life := Live(cfg.dust, profile, s.life, Observe(price)))
    case Elsewhere(op) => s.(h := Step(cfg, s.h, op))
    case Exit(price, now, marketPrice, quote) =>
      if s.life.ended || NextExit(s.life.pos, price, now, profile).None? then s
      else
        var op := ExitOrder(s.life.pos, NextExit(s.life.pos, price, now, profile).value, marketPrice, quote);
        if Outcome(cfg, s.h, op).Ok? then
          Session(Step(cfg, s.h, op), Live(cfg.dust, profile, s.life, Act(price, now)))
        else
          s.(h := Step(cfg, s.h, op))
  }

  /** No one else trades the symbol, and the execution model fills no more than was asked. */
  predicate Permitted(profile: Profile, s: Session, e: SessionEvent) {
    match e
    case Price(_) => true
    case Elsewhere(op) => op.PlaceOrder? ==> ToUpper(op.params.symbol) != ToUpper(s.life.pos.symbol)
    case Exit(price, now, _, quote) =>
      !s.life.ended && NextExit(s.life.pos, price, now, profile).Some? ==>
        quote.filledQuantity <= NextExit(s.life.pos, price, now, profile).value.quantity
  }

  /** The execution model fills every exit in full. */
  predicate FillsInFull(profile: Profile, s: Session, e: SessionEvent) {
    e.Exit? && !s.life.ended && NextExit(s.life.pos, e.price, e.now, profile).Some? ==>
      e.quote.filledQuantity == NextExit(s.life.pos, e.price, e.now, profile).value.quantity
  }

  function Drive(cfg: Settings, profile: Profile, start: Session, events: seq<SessionEvent>): Session {
    if events == [] then start
    else Next(cfg, profile, Drive(cfg, profile, start, events[..|events| - 1]), events[|events| - 1])
  }

  predicate AllPermitted(cfg: Settings, profile: Profile, start: Session, events: seq<SessionEvent>) {
    forall i :: 0 <= i < |events| ==> Permitted(profile, Drive(cfg, profile, start, events[..i]), events[i])
  }

  predicate AllFillInFull(cfg: Settings, profile: Profile, start: Session, events: seq<SessionEvent>) {
    forall i :: 0 <= i < |events| ==> FillsInFull(profile, Drive(cfg, profile, start, events[..i]), events[i])
  }

  /** A fresh plan for exactly the open position the engine holds. */
  ghost predicate Matching(initial: real, s: Session) {
    && Invariant(initial, s.h) && Fresh(s.life.pos) && !s.life.ended
    && Held(s).side == SideOf(s.life.pos.side) && Held(s).quantity == s.life.pos.remaining
  }

  /** The engine is on the plan's side or flat, and holds at least what the plan has left to close. */
  ghost predicate Covered(initial: real, s: Session) {
    && Invariant(initial, s.h)
    && Shape(Held(s))
    && (Held(s).side == SideOf(s.life.pos.side) || Held(s).side == P.NONE)
    && 0.0 <= s.life.pos.remaining <= Held(s).quantity
    && (s.life.ended ==> s.life.pos.remaining == 0.0)
  }

  // ---------------------------------------------------------------------------
  // One event
  // ---------------------------------------------------------------------------

  lemma AcceptedAt(cfg: Settings, h: History, op: Op, s: string)
    requires op.PlaceOrder? && Outcome(cfg, h, op).Ok?
    ensures op.quote.filledQuantity > 0.0 && P.LeverageOf(op.params) != 0.0
    ensures P.At(Step(cfg, h, op).account.positions, s) ==
            if s == ToUpper(op.params.symbol) then
              P.Marked(P.Filled(cfg.dust, P.At(h.account.positions, s), op.params.side, op.quote.filledQuantity,
                                op.quote.fillPrice, P.LeverageOf(op.params)).position, op.marketPrice)
            else P.At(h.account.positions, s)
  {
    WithPositionAt(h.account, ToUpper(op.params.symbol));
    hide P.Filled, P.Marked;
  }

  lemma MarkedKeepsSize(p: P.Position, price: real)
    ensures P.Marked(p, price).side == p.side && P.Marked(p, price).quantity == p.quantity
  {
  }

  /** Orders on other symbols and refreshes leave side and quantity alone. */
  lemma ElsewhereKeeps(cfg: Settings, h: History, op: Op, symbol: string)
    requires op.PlaceOrder? ==> ToUpper(op.params.symbol) != symbol
    ensures var p, q := P.At(h.account.positions, symbol), P.At(Step(cfg, h, op).account.positions, symbol);
            q.side == p.side && q.quantity == p.quantity
  {
    match op {
      case PlaceOrder(params, marketPrice, quote) =>
        if Outcome(cfg, h, op).Ok? {
          AcceptedAt(cfg, h, op, symbol);
        } else {
          RefusalChangesNothing(cfg, h, op, symbol);
        }
      case UpdatePositions(prices) =>
        if symbol in h.account.positions && P.IsMarked(h.account, prices, symbol) {
          MarkedKeepsSize(h.account.positions[symbol], prices[symbol]);
        }
    }
  }

  /** What an accepted exit of at most the decided quantity leaves. */
  lemma ExitReduces(cfg: Settings, initial: real, s: Session, d: Decision, marketPrice: real, quote: ExecutionQuote)
    requires Covered(initial, s) && cfg.dust >= 0.0
    requires quote.filledQuantity <= d.quantity <= s.life.pos.remaining
    requires Outcome(cfg, s.h, ExitOrder(s.life.pos, d, marketPrice, quote)).Ok?
    ensures var q := Held(s.(h := Step(cfg, s.h, ExitOrder(s.life.pos, d, marketPrice, quote))));
            var left := Held(s).quantity - quote.filledQuantity;
            && 0.0 < quote.filledQuantity
            && (q.side == Held(s).side || q.side == P.NONE)
            && q.quantity == (if left <= cfg.dust then 0.0 else left)
  {
    var op := ExitOrder(s.life.pos, d, marketPrice, quote);
    AcceptedAt(cfg, s.h, op, ToUpper(s.life.pos.symbol));
    ReduceNeverFlips(cfg.dust, Held(s), op.params.side, quote.filledQuantity, quote.fillPrice, P.LeverageOf(op.params));
    MarkedKeepsSize(
      P.Filled(
        cfg.dust, Held(s), op.params.side, quote.filledQuantity, quote.fillPrice, P.LeverageOf(op.params)).position,
      marketPrice);
  }

  lemma HeldShape(initial: real, s: Session)
    requires Invariant(initial, s.h)
    ensures Shape(Held(s))
  {
  }

  lemma NextCovered(cfg: Settings, profile: Profile, initial: real, s: Session, e: SessionEvent)
    requires cfg.dust >= 0.0 && Covered(initial, s) && Permitted(profile, s, e)
    ensures Covered(initial, Next(cfg, profile, s, e))
    ensures Held(s).quantity == s.life.pos.remaining && FillsInFull(profile, s, e) ==>
              Held(Next(cfg, profile, s, e)).quantity == Next(cfg, profile, s, e).life.pos.remaining
  {
    hide Invariant, Shape, Step, NextExit;
    match e {
      case Price(_) =>
      case Elsewhere(op) =>
        ElsewhereKeeps(cfg, s.h, op, ToUpper(s.life.pos.symbol));
        StepKeeps(cfg, initial, s.h, op);
        HeldShape(initial, Next(cfg, profile, s, e));
      case Exit(price, now, marketPrice, quote) =>
        var d := NextExit(s.life.pos, price, now, profile);
        if !s.life.ended && d.Some? {
          var op := ExitOrder(s.life.pos, d.value, marketPrice, quote);
          ExitKinds(s.life.pos, price, now, profile, d.value);
          StepKeeps(cfg, initial, s.h, op);
          HeldShape(initial, s.(h := Step(cfg, s.h, op)));
          if Outcome(cfg, s.h, op).Ok? {
            ExitReduces(cfg, initial, s, d.value, marketPrice, quote);
          } else {
            RefusalChangesNothing(cfg, s.h, op, ToUpper(s.life.pos.symbol));
          }
          hide Outcome;
        }
    }
  }

  // ---------------------------------------------------------------------------
  // Every session
  // ---------------------------------------------------------------------------

  lemma DrivePrefix(cfg: Settings, profile: Profile, start: Session, events: seq<SessionEvent>)
    requires events != []
    requires AllPermitted(cfg, profile, start, events)
    ensures var front := events[..|events| - 1];
            && AllPermitted(cfg, profile, start, front)
            && Permitted(profile, Drive(cfg, profile, start, front), events[|events| - 1])
            && (AllFillInFull(cfg, profile, start, events) ==>
                  && AllFillInFull(cfg, profile, start, front)
                  && FillsInFull(profile, Drive(cfg, profile, start, front), events[|events| - 1]))
  {
    hide Permitted, FillsInFull, Drive;
    var front := events[..|events| - 1];
    forall i | 0 <= i < |front|
      ensures Permitted(profile, Drive(cfg, profile, start, front[..i]), front[i])
      ensures AllFillInFull(cfg, profile, start, events) ==>
                FillsInFull(profile, Drive(cfg, profile, start, front[..i]), front[i])
    {
      assert front[..i] == events[..i] && front[i] == events[i];
    }
  }

  /**
   From an open position that matches the plan, and whatever the prices, the quotes and the
   rest of the account do, the exits never reverse the position: it stays on its side or goes
   flat, and the engine never holds less than the plan has left to close.
   */
  lemma {:induction false} ExitsNeverReverse(
    cfg: Settings, profile: Profile, initial: real, start: Session, events: seq<SessionEvent>)
    requires cfg.dust >= 0.0 && Matching(initial, start) && AllPermitted(cfg, profile, start, events)
    ensures Covered(initial, Drive(cfg, profile, start, events))
  {
    if events != [] {
      DrivePrefix(cfg, profile, start, events);
      ExitsNeverReverse(cfg, profile, initial, start, events[..|events| - 1]);
      NextCovered(cfg, profile, initial, Drive(cfg, profile, start, events[..|events| - 1]), events[|events| - 1]);
    } else {
      HeldShape(initial, start);
    }
  }

  lemma {:induction false} FullExitsTrack(
    cfg: Settings, profile: Profile, initial: real, start: Session, events: seq<SessionEvent>)
    requires cfg.dust >= 0.0 && Matching(initial, start)
    requires AllPermitted(cfg, profile, start, events) && AllFillInFull(cfg, profile, start, events)
    ensures Held(Drive(cfg, profile, start, events)).quantity == Drive(cfg, profile, start, events).life.pos.remaining
  {
    if events != [] {
      var front := events[..|events| - 1];
      DrivePrefix(cfg, profile, start, events);
      FullExitsTrack(cfg, profile, initial, start, front);
      ExitsNeverReverse(cfg, profile, initial, start, front);
      NextCovered(cfg, profile, initial, Drive(cfg, profile, start, front), events[|events| - 1]);
    }
  }

  /** When exits fill in full, a plan that has ended leaves the position flat with no margin locked. */
  lemma EndedIsFlat(cfg: Settings, profile: Profile, initial: real, start: Session, events: seq<SessionEvent>)
    requires cfg.dust >= 0.0 && Matching(initial, start)
    requires AllPermitted(cfg, profile, start, events) && AllFillInFull(cfg, profile, start, events)
    requires Drive(cfg, profile, start, events).life.ended
    ensures Flat(Held(Drive(cfg, profile, start, events)))
  {
    ExitsNeverReverse(cfg, profile, initial, start, events);
    FullExitsTrack(cfg, profile, initial, start, events);
  }

  // ---------------------------------------------------------------------------
  // Exits that fill in part
  // ---------------------------------------------------------------------------

  predicate Flat(p: P.Position) {
    p.side == P.NONE && p.quantity == 0.0 && p.margin == 0.0 && p.entryPrice == 0.0
  }

  /** What an event fills of the managed position. */
  function FilledBy(cfg: Settings, profile: Profile, s: Session, e: SessionEvent): real {
    if e.Exit? && !s.life.ended && NextExit(s.life.pos, e.price, e.now, profile).Some?
       && Outcome(
            cfg, s.h,
            ExitOrder(s.life.pos, NextExit(s.life.pos, e.price, e.now, profile).value, e.marketPrice, e.quote)).Ok?
    then e.quote.filledQuantity else 0.0
  }

  /** What the exits of a session have filled in all. */
  function TotalFilled(cfg: Settings, profile: Profile, start: Session, events: seq<SessionEvent>): real {
    if events == [] then 0.0
    else
      var front := events[..|events| - 1];
      TotalFilled(cfg, profile, start, front)
        + FilledBy(cfg, profile, Drive(cfg, profile, start, front), events[|events| - 1])
  }

  /** The position holds what was not filled, unless that is dust. */
  predicate HoldsUnfilled(cfg: Settings, s: Session, filled: real) {
    Held(s).quantity == if s.life.pos.original - filled <= cfg.dust then 0.0 else s.life.pos.original - filled
  }

  lemma NextKeepsTerms(cfg: Settings, profile: Profile, s: Session, e: SessionEvent)
    ensures Next(cfg, profile, s, e).life.pos.original == s.life.pos.original
    ensures Next(cfg, profile, s, e).life.pos.symbol == s.life.pos.symbol
  {
    hide Outcome, Step, NextExit;
  }

  lemma NextHoldsUnfilled(cfg: Settings, profile: Profile, initial: real, s: Session, e: SessionEvent, filled: real)
    requires cfg.dust >= 0.0 && Covered(initial, s) && Permitted(profile, s, e) && HoldsUnfilled(cfg, s, filled)
    ensures HoldsUnfilled(cfg, Next(cfg, profile, s, e), filled + FilledBy(cfg, profile, s, e))
  {
    hide Invariant, Shape, Step, NextExit;
    NextKeepsTerms(cfg, profile, s, e);
    match e {
      case Price(_) =>
      case Elsewhere(op) =>
        ElsewhereKeeps(cfg, s.h, op, ToUpper(s.life.pos.symbol));
      case Exit(price, now, marketPrice, quote) =>
        var d := NextExit(s.life.pos, price, now, profile);
        if !s.life.ended && d.Some? {
          var op := ExitOrder(s.life.pos, d.value, marketPrice, quote);
          ExitKinds(s.life.pos, price, now, profile, d.value);
          if Outcome(cfg, s.h, op).Ok? {
            ExitReduces(cfg, initial, s, d.value, marketPrice, quote);
          } else {
            RefusalChangesNothing(cfg, s.h, op, ToUpper(s.life.pos.symbol));
          }
          hide Outcome;
        }
    }
  }

  lemma {:induction false} SessionHoldsUnfilled(
    cfg: Settings, profile: Profile, initial: real, start: Session, events: seq<SessionEvent>)
    requires cfg.dust >= 0.0 && Matching(initial, start) && start.life.pos.original > cfg.dust
    requires AllPermitted(cfg, profile, start, events)
    ensures HoldsUnfilled(cfg, Drive(cfg, profile, start, events), TotalFilled(cfg, profile, start, events))
    ensures Drive(cfg, profile, start, events).life.pos.original == start.life.pos.original
  {
    if events != [] {
      var front, e := events[..|events| - 1], events[|events| - 1];
      DrivePrefix(cfg, profile, start, events);
      SessionHoldsUnfilled(cfg, profile, initial, start, front);
      ExitsNeverReverse(cfg, profile, initial, start, front);
      var s := Drive(cfg, profile, start, front);
      NextKeepsTerms(cfg, profile, s, e);
      hide Next, HoldsUnfilled, Covered, Matching, Permitted, FilledBy;
      NextHoldsUnfilled(cfg, profile, initial, s, e, TotalFilled(cfg, profile, start, front));
    }
  }

  /**
   The plan promises that its end leaves the position flat. It does, as it does at any other time,
   exactly when what the exits filled comes to the original size, up to the dust cutoff; otherwise
   exactly the rest of it stays open, on the same side.
   */
  lemma FlatIffFilled(cfg: Settings, profile: Profile, initial: real, start: Session, events: seq<SessionEvent>)
    requires cfg.dust >= 0.0 && Matching(initial, start) && start.life.pos.original > cfg.dust
    requires AllPermitted(cfg, profile, start, events)
    ensures var p := Held(Drive(cfg, profile, start, events));
            var unfilled := start.life.pos.original - TotalFilled(cfg, profile, start, events);
            && (Flat(p) <==> unfilled <= cfg.dust)
            && (unfilled > cfg.dust ==> p.quantity == unfilled && p.side == Held(start).side)
  {
    ExitsNeverReverse(cfg, profile, initial, start, events);
    SessionHoldsUnfilled(cfg, profile, initial, start, events);
    DriveKeepsSide(cfg, profile, start, events);
  }

  lemma {:induction false} DriveKeepsSide(cfg: Settings, profile: Profile, start: Session, events: seq<SessionEvent>)
    ensures Drive(cfg, profile, start, events).life.pos.side == start.life.pos.side
  {
    hide Outcome, Step, NextExit;
    if events != [] {
      DriveKeepsSide(cfg, profile, start, events[..|events| - 1]);
    }
  }

  /** A terminal exit that fills in part ends the plan and leaves the rest of the position open. */
  lemma PartialExitLeavesOpen(cfg: Settings, profile: Profile, initial: real, start: Session, e: SessionEvent)
    requires cfg.dust >= 0.0 && Matching(initial, start) && start.life.pos.original > cfg.dust
    requires e.Exit? && Permitted(profile, start, e)
    requires NextExit(start.life.pos, e.price, e.now, profile).Some?
    requires var d := NextExit(start.life.pos, e.price, e.now, profile).value;
             d.terminal && Outcome(cfg, start.h, ExitOrder(start.life.pos, d, e.marketPrice, e.quote)).Ok?
    requires start.life.pos.original - e.quote.filledQuantity > cfg.dust
    ensures var after := Drive(cfg, profile, start, [e]);
            after.life.ended && Held(after).quantity == start.life.pos.original - e.quote.filledQuantity > 0.0
            && Held(after).side == Held(start).side
  {
    SingleEvent(cfg, profile, start, e);
    TerminalExitEnds(cfg, profile, start, e);
    hide *;
    FlatIffFilled(cfg, profile, initial, start, [e]);
  }

  lemma SingleEvent(cfg: Settings, profile: Profile, start: Session, e: SessionEvent)
    ensures Drive(cfg, profile, start, [e]) == Next(cfg, profile, start, e)
    ensures TotalFilled(cfg, profile, start, [e]) == FilledBy(cfg, profile, start, e)
    ensures AllPermitted(cfg, profile, start, [e]) <==> Permitted(profile, start, e)
  {
    hide Next, FilledBy, Permitted;
    assert [e][..0] == [];
    assert Drive(cfg, profile, start, []) == start && TotalFilled(cfg, profile, start, []) == 0.0;
  }

  lemma TerminalExitEnds(cfg: Settings, profile: Profile, s: Session, e: SessionEvent)
    requires e.Exit? && !s.life.ended && NextExit(s.life.pos, e.price, e.now, profile).Some?
    requires var d := NextExit(s.life.pos, e.price, e.now, profile).value;
             d.terminal && Outcome(cfg, s.h, ExitOrder(s.life.pos, d, e.marketPrice, e.quote)).Ok?
    ensures Next(cfg, profile, s, e).life.ended && FilledBy(cfg, profile, s, e) == e.quote.filledQuantity
  {
    hide Outcome, Step, NextExit;
  }

  /** Such a session exists: one unit bought, a stop, and a book that takes half of it. */
  lemma HalfFilledStopExample(cfg: Settings, profile: Profile, symbol: string) returns (start: Session, e: SessionEvent)
    requires cfg == Settings(0.0, None)
    ensures Matching(1000.0, start) && e.Exit? && AllPermitted(cfg, profile, start, [e])
    ensures var after := Drive(cfg, profile, start, [e]);
            after.life.ended && Held(after).quantity == 0.5 && Held(after).side == P.LONG
  {
    var h := OneUnitBought(cfg, symbol);
    var pos := Managed(symbol, Dir.LONG, 1.0, 1.0, 0.0, 90.0, 110.0, 120.0, false, false, 100.0);
    start := Session(h, Life(pos, [], false));
    e := Exit(80.0, 0.0, 80.0, ExecutionQuote(80.0, 0.5, PARTIALLY_FILLED));
    var d := Decision(STOP, 1.0, true);
    assert NextExit(pos, 80.0, 0.0, profile) == Some(d);
    HeldShape(1000.0, start);
    hide Invariant, NextExit, Outcome, Shape;
    SingleEvent(cfg, profile, start, e);
    ExitRefusedIff(cfg, 1000.0, start, d, 80.0, e.quote);
    PartialExitLeavesOpen(cfg, profile, 1000.0, start, e);
  }

  /** One unit bought at 100 from a balance of 1000. */
  lemma OneUnitBought(cfg: Settings, symbol: string) returns (h: History)
    requires cfg == Settings(0.0, None)
    ensures Invariant(1000.0, h) && h.account.availableBalance == 900.0
    ensures var p := P.At(h.account.positions, ToUpper(symbol));
            p.side == P.LONG && p.quantity == 1.0
  {
    var buy := Market(symbol, BUY, 1.0, 100.0);
    var h0 := Run(cfg, 1000.0, []);
    h := Run(cfg, 1000.0, [buy]);
    RunKeeps(cfg, 1000.0, [buy]);
    assert [buy][..0] == [];
    hide Invariant, Step;
    FirstOrder(cfg, h0, buy, P.At(h0.account.positions, ToUpper(symbol)));
  }

  /** The first order on a symbol opens a position of its size on its side. */
  lemma FirstOrder(cfg: Settings, h: History, op: Op, p: P.Position)
    requires op.PlaceOrder? && p == P.At(h.account.positions, ToUpper(op.params.symbol)) && p.side == P.NONE
    requires p.quantity == 0.0
    requires P.Precheck(op.params).None? && op.quote.status != REJECTED && op.quote.filledQuantity > 0.0
    requires P.LeverageOf(op.params) == 1.0
    requires op.quote.filledQuantity * op.quote.fillPrice <= h.account.availableBalance
    ensures Outcome(cfg, h, op).Ok?
    ensures var q := P.At(Step(cfg, h, op).account.positions, ToUpper(op.params.symbol));
            q.quantity == op.quote.filledQuantity && q.side == (if op.params.side == BUY then P.LONG else P.SHORT)
    ensures Step(cfg, h, op).account.availableBalance ==
            h.account.availableBalance - op.quote.filledQuantity * op.quote.fillPrice
  {
    WithPositionAt(h.account, ToUpper(op.params.symbol));
    hide P.Marked, P.Across;
    if Outcome(cfg, h, op).Ok? {
      AcceptedAt(cfg, h, op, ToUpper(op.params.symbol));
      MarkedKeepsSize(
        P.Filled(
          cfg.dust, p, op.params.side, op.quote.filledQuantity, op.quote.fillPrice, P.LeverageOf(op.params)).position,
        op.marketPrice);
    }
  }

  // ---------------------------------------------------------------------------
  // Refused exits and book quotes
  // ---------------------------------------------------------------------------

  /**
   A closing order locks no margin, yet the engine checks the balance all the same: an exit with
   a usable quote is refused exactly when the available balance is below minus the slack.
   */
  lemma ExitRefusedIff(cfg: Settings, initial: real, s: Session, d: Decision, marketPrice: real, quote: ExecutionQuote)
    requires Covered(initial, s) && 0.0 < quote.filledQuantity <= d.quantity <= s.life.pos.remaining
    requires quote.status != REJECTED
    ensures Outcome(cfg, s.h, ExitOrder(s.life.pos, d, marketPrice, quote)).Err? <==>
            s.h.account.availableBalance + P.MARGIN_SLACK < 0.0
    ensures s.h.account.availableBalance + P.MARGIN_SLACK < 0.0 <==>
            var a := s.h.account;
            P.Across(a.symbols, a.positions, MarginOf) > a.balance + RealSum(s.h.ledger, Fee) + P.MARGIN_SLACK
  {
    var op := ExitOrder(s.life.pos, d, marketPrice, quote);
    WithPositionAt(s.h.account, ToUpper(op.params.symbol));
    NoMarginToClose(Held(s), op.params, quote);
    hide P.Filled, P.RequiredMargin;
  }

  /** What a fill that reduces a position moves: half closed at a loss of all that was locked. */
  lemma HalfClosedAtALoss(dust: real, p: P.Position)
    requires p.side == P.SHORT && p.quantity == 2.0 && p.entryPrice == 100.0 && p.margin == 200.0 && dust == 0.0
    ensures var e := P.Filled(dust, p, BUY, 1.0, 300.0, 1.0);
            e.availableDelta == -100.0 && e.position.side == P.SHORT && e.position.quantity == 1.0
  {
    assert P.Profit(p, 1.0, 300.0) == -200.0;
    assert P.Released(p, 1.0) == 100.0;
  }

  lemma FirstShort(dust: real, p: P.Position)
    requires p.side == P.NONE && p.quantity == 0.0 && p.entryPrice == 0.0 && p.margin == 0.0
    ensures var e := P.Filled(dust, p, SELL, 2.0, 100.0, 1.0);
            && e.availableDelta == -200.0
            && e.position.side == P.SHORT && e.position.quantity == 2.0
            && e.position.entryPrice == 100.0 && e.position.margin == 200.0
  {
  }

  /** A market order for a plain quantity that fills at a price, with the mark there too. */
  function Market(symbol: string, side: Side, quantity: real, price: real): Op {
    PlaceOrder(P.OrderParams(symbol, side, MARKET, quantity, None, None), price,
      ExecutionQuote(price, quantity, FILLED))
  }

  /** What an accepted order leaves of the available balance and of its position, mark aside. */
  lemma AcceptedOrder(cfg: Settings, h: History, op: Op, p: P.Position, e: P.FillEffect)
    requires op.PlaceOrder? && p == P.At(h.account.positions, ToUpper(op.params.symbol))
    requires P.LeverageOf(op.params) == 1.0
    requires P.Precheck(op.params).None? && op.quote.status != REJECTED && op.quote.filledQuantity > 0.0
    requires P.RequiredMargin(p, op.params, op.quote) <= h.account.availableBalance + P.MARGIN_SLACK
    requires e == P.Filled(cfg.dust, p, op.params.side, op.quote.filledQuantity, op.quote.fillPrice, 1.0)
    ensures var after := Step(cfg, h, op);
            && after.account.availableBalance == h.account.availableBalance + e.availableDelta
            && P.At(after.account.positions, ToUpper(op.params.symbol)) == P.Marked(e.position, op.marketPrice)
  {
    WithPositionAt(h.account, ToUpper(op.params.symbol));
    hide P.Filled, P.Marked, P.Across, P.RequiredMargin;
    assert Outcome(cfg, h, op).Ok?;
    AcceptedAt(cfg, h, op, ToUpper(op.params.symbol));
  }

  predicate TwoShort(p: P.Position) {
    p.side == P.SHORT && p.quantity == 2.0 && p.entryPrice == 100.0 && p.margin == 200.0
  }

  lemma SellTwo(cfg: Settings, h: History, symbol: string, p: P.Position)
    requires cfg.dust == 0.0 && h.account.availableBalance == 200.0 && p == P.At(h.account.positions, ToUpper(symbol))
    requires p.side == P.NONE && p.quantity == 0.0 && p.entryPrice == 0.0 && p.margin == 0.0
    ensures var after := Step(cfg, h, Market(symbol, SELL, 2.0, 100.0));
            after.account.availableBalance == 0.0 && TwoShort(P.At(after.account.positions, ToUpper(symbol)))
  {
    var sell := Market(symbol, SELL, 2.0, 100.0);
    FirstShort(cfg.dust, p);
    var e := P.Filled(cfg.dust, p, SELL, 2.0, 100.0, 1.0);
    assert P.RequiredMargin(p, sell.params, sell.quote) == 200.0;
    hide Step, P.Filled;
    AcceptedOrder(cfg, h, sell, p, e);
  }

  lemma BuyOneBack(cfg: Settings, h: History, symbol: string, p: P.Position)
    requires cfg.dust == 0.0 && h.account.availableBalance == 0.0 && p == P.At(h.account.positions, ToUpper(symbol))
    requires TwoShort(p)
    ensures var after := Step(cfg, h, Market(symbol, BUY, 1.0, 300.0));
            var q := P.At(after.account.positions, ToUpper(symbol));
            after.account.availableBalance == -100.0 && q.side == P.SHORT && q.quantity == 1.0
  {
    var buy := Market(symbol, BUY, 1.0, 300.0);
    HalfClosedAtALoss(cfg.dust, p);
    var e := P.Filled(cfg.dust, p, BUY, 1.0, 300.0, 1.0);
    assert P.RequiredMargin(p, buy.params, buy.quote) == 0.0;
    MarkedKeepsSize(e.position, 300.0);
    hide Step, P.Filled, P.Marked;
    AcceptedOrder(cfg, h, buy, p, e);
  }

  /**
   A loss larger than the margin it releases can leave the available balance negative, and then
   the order that would close the rest is refused. Without any fees: balance 200, two units sold
   at 100, one of them bought back at 300.
   */
  lemma ClosingRefusedExample(cfg: Settings, symbol: string)
    requires cfg == Settings(0.0, None)
    ensures var h := Run(cfg, 200.0, [Market(symbol, SELL, 2.0, 100.0), Market(symbol, BUY, 1.0, 300.0)]);
            var p := P.At(h.account.positions, ToUpper(symbol));
            && p.side == P.SHORT && p.quantity == 1.0 && h.account.availableBalance == -100.0
            && Outcome(cfg, h, Market(symbol, BUY, 1.0, 300.0)) == Err(P.InsufficientBalance)
  {
    var sell, buy := Market(symbol, SELL, 2.0, 100.0), Market(symbol, BUY, 1.0, 300.0);
    var h0, h1, h2 := Run(cfg, 200.0, []), Run(cfg, 200.0, [sell]), Run(cfg, 200.0, [sell, buy]);
    assert [sell][..0] == [] && [sell, buy][..1] == [sell];
    assert h1 == Step(cfg, h0, sell) && h2 == Step(cfg, h1, buy) && h0.account.availableBalance == 200.0;
    SellTwo(cfg, h0, symbol, P.At(h0.account.positions, ToUpper(symbol)));
    hide Run, Step, Outcome;
    BuyOneBack(cfg, h1, symbol, P.At(h1.account.positions, ToUpper(symbol)));
    ClosingRefused(cfg, h2, buy, P.At(h2.account.positions, ToUpper(symbol)));
  }

  lemma ClosingRefused(cfg: Settings, h: History, op: Op, p: P.Position)
    requires op.PlaceOrder? && p == P.At(h.account.positions, ToUpper(op.params.symbol))
    requires P.LeverageOf(op.params) == 1.0
    requires P.Precheck(op.params).None? && op.quote.status != REJECTED && op.quote.filledQuantity > 0.0
    requires P.Opposing(p, op.params.side) && op.quote.filledQuantity <= p.quantity
    requires h.account.availableBalance + P.MARGIN_SLACK < 0.0
    ensures Outcome(cfg, h, op) == Err(P.InsufficientBalance)
  {
    WithPositionAt(h.account, ToUpper(op.params.symbol));
    NoMarginToClose(p, op.params, op.quote);
    hide P.Filled, P.RequiredMargin;
  }

  lemma NoMarginToClose(p: P.Position, params: P.OrderParams, quote: ExecutionQuote)
    requires P.Opposing(p, params.side) && quote.filledQuantity <= p.quantity && P.LeverageOf(params) == 1.0
    ensures P.RequiredMargin(p, params, quote) == 0.0
  {
  }

  /**
   A quote off a sound order book is one that `Permitted` asks for: a long position is sold to the
   bids and a short one bought back from the asks, and an accepted quote fills exactly the smaller
   of what was decided and what is there.
   */
  lemma BookQuotesArePermitted(book: Book.BookView, pos: Managed, d: Decision, marketPrice: real)
    requires d.quantity > 0.0
    requires Book.NonNegative(if pos.side == Dir.LONG then book.bids else book.asks) && Book.HasBook(Some(book))
    ensures var params := ExitOrder(pos, d, marketPrice, ExecutionQuote(0.0, 0.0, REJECTED)).params;
            var quote := Book.Quoted(Some(book), P.ContextOf(params, marketPrice));
            && quote.filledQuantity <= d.quantity
            && (quote.status != REJECTED ==>
                  quote.filledQuantity ==
                  Min(d.quantity, Book.Depth(if pos.side == Dir.LONG then book.bids else book.asks)))
  {
    var params := ExitOrder(pos, d, marketPrice, ExecutionQuote(0.0, 0.0, REJECTED)).params;
    var ctx := P.ContextOf(params, marketPrice);
    if Book.Quoted(Some(book), ctx).status != REJECTED {
      Book.QuoteFills(Some(book), ctx);
    } else {
      Book.RejectedFillsNothing(Some(book), ctx);
    }
  }

  /** An exit is a market order at no leverage of its own for the decided quantity of the position's symbol. */
  lemma ExitOrderCloses(pos: Managed, d: Decision, marketPrice: real, quote: ExecutionQuote)
    ensures var params := ExitOrder(pos, d, marketPrice, quote).params;
            && params.symbol == pos.symbol && params.quantity == d.quantity
            && params.orderType == MARKET && params.leverage.None?
            && (params.side == SELL <==> pos.side == Dir.LONG)
  {
  }
}
