/**
 The paper simulator as an exchange for the execution manager (src/execution/paper.ts), and what
 idempotent placement comes to on it: which requests reach the simulator, that replays of recorded
 intents change nothing, and that every filled execution holds exactly its own fill. How numbers
 are printed is a parameter.
 */
module PaperBackend {
  import opened ExecutionBooks
  import opened FixedPoint
  import opened PaperAccounting
  import opened PaperModels
  import opened Placement
  import opened PlacementLimits
  import opened PlacementSafety
  import opened StreamFills
  import opened Text
  import opened Sums
  import opened Wrappers

  /** Number(x) of a submitted field. */
  datatype Number = Finite(value: real) | NotFinite

  /** A submitted field: what Number(x) makes of it, and whether it can be read as a decimal. */
  datatype Field = Field(number: Number, decimal: bool)

  datatype Submission = Submission(
    symbol: string,
    side: Side,
    orderType: Option<string>,
    quantity: Field,
    price: Option<Field>)

  /** The manager can build a record of the request: quantity and price, where given, are decimals. */
  predicate Reads(sub: Submission) {
    sub.quantity.decimal && (sub.price.Some? ==> sub.price.value.decimal)
  }

  predicate Positive(n: Number) {
    n.Finite? && n.value > 0.0
  }

  /** What the price feed and the execution model answer, unless one of them throws. */
  datatype Market = Quoted(price: real, quote: ExecutionQuote) | Unavailable

  /** The order record the adapter keeps: the shape it shows, and the symbol lookups compare. */
  datatype OrderRecord = OrderRecord(symbol: string, shape: OrderShape)

  datatype Desk = Desk(account: Account, orders: map<string, OrderRecord>)

  datatype Config = Config(dust: real, fees: Option<FeeModel>, commissionAsset: string, show: real -> string)

  const MISSING_PARAMETER := -1102
  const INVALID_ORDER_TYPE := -1116
  const INVALID_NUMBER := -1013
  const REJECTED_ORDER := -2019

  /** A finite number prints as a numeral, and only zero as "0". */
  ghost predicate ShowsNumerals(show: real -> string) {
    forall x :: Numeral(show(x)) && (show(x) == "0" <==> x == 0.0)
  }

  function TypeOf(sub: Submission): string {
    ToUpper(if sub.orderType.Some? then sub.orderType.value else "MARKET")
  }

  /** The checks the adapter makes itself. */
  function Refused(cid: string, sub: Submission): Option<int> {
    if cid == "" then Some(MISSING_PARAMETER)
    else if TypeOf(sub) != "MARKET" && TypeOf(sub) != "LIMIT" then Some(INVALID_ORDER_TYPE)
    else if !Positive(sub.quantity.number) then Some(INVALID_NUMBER)
    else if TypeOf(sub) == "LIMIT" && !(sub.price.Some? && Positive(sub.price.value.number)) then Some(INVALID_NUMBER)
    else None
  }

  function ParamsOf(sub: Submission): OrderParams
    requires sub.quantity.number.Finite?
  {
    OrderParams(
      sub.symbol, sub.side, if TypeOf(sub) == "LIMIT" then LIMIT else MARKET, sub.quantity.number.value,
      if sub.price.Some? && sub.price.value.number.Finite? then Some(sub.price.value.number.value) else None, None)
  }

  function StatusText(status: QuoteStatus): string {
    match status
    case FILLED => "FILLED"
    case PARTIALLY_FILLED => "PARTIALLY_FILLED"
    case REJECTED => "REJECTED"
  }

  /** An order as the adapter shows it, with its one fill. */
  function ShapeOf(cfg: Config, cid: string, order: PaperOrder): OrderShape {
    var quantity, price := cfg.show(order.filledQuantity), cfg.show(order.avgFillPrice);
    var charged := order.commission.Some?;
    OrderShape(
      Some(order.orderId), cid, StatusText(order.status), Some(quantity),
      Some(cfg.show(order.filledQuantity * order.avgFillPrice)), Some(price),
      [Fill(price, quantity,
            if charged then Some(cfg.show(order.commission.value)) else None,
            if charged then Some(cfg.commissionAsset) else None,
            None)])
  }

  /** The report of the fill, sent before the order is acknowledged. */
  function ReportOf(cfg: Config, cid: string, order: PaperOrder): Report {
    var quantity, price := cfg.show(order.filledQuantity), cfg.show(order.avgFillPrice);
    Report(
      cid, Some(order.orderId), StatusText(order.status), Some(price), Some(quantity),
      Some(if order.commission.Some? then cfg.show(order.commission.value) else "0"), Some(cfg.commissionAsset),
      Some(quantity), Some(cfg.show(order.filledQuantity * order.avgFillPrice)), Some(price), None)
  }

  datatype Answer = Answer(desk: Desk, reply: Reply, report: Option<Report>)

  /** `createOrder`: whatever the engine throws comes back as error -2019. */
  function Create(cfg: Config, desk: Desk, cid: string, sub: Submission, market: Market): Answer {
    if Refused(cid, sub).Some? then Answer(desk, ApiFailure(Refused(cid, sub).value), None)
    else if market.Unavailable? then Answer(desk, ApiFailure(REJECTED_ORDER), None)
    else
      var (account, result) :=
        PaperAccounting.Placed(cfg.dust, cfg.fees, desk.account, ParamsOf(sub), market.price, market.quote);
      match result
      case Err(_) => Answer(desk.(account := account), ApiFailure(REJECTED_ORDER), None)
      case Ok(order) =>
        var shape := ShapeOf(cfg, cid, order);
        Answer(Desk(account, desk.orders[cid := OrderRecord(order.symbol, shape)]), OrderReply(shape),
               Some(ReportOf(cfg, cid, order)))
  }

  /** `fetchOrder`. */
  function Fetch(desk: Desk, symbol: string, cid: string): Reply {
    if cid in desk.orders && desk.orders[cid].symbol == ToUpper(symbol) then OrderReply(desk.orders[cid].shape)
    else ApiFailure(NO_SUCH_ORDER)
  }

  // ---------------------------------------------------------------------------
  // The manager on the paper backend
  // ---------------------------------------------------------------------------

  datatype Session = Session(books: Books, desk: Desk)

  datatype Request = Request(intent: string, sub: Submission, market: Market)

  /** A script of one reply: the paper adapter settles every submission at once. */
  function Once(readable: bool, reply: Reply): Script {
    Script(readable, (k: nat) => reply, (k: nat, a: nat) => NetworkFailure)
  }

  /** What the report of a fill, if any, does to the books, and whether its handler threw. */
  function Heard(b: Books, report: Option<Report>): (Books, bool) {
    if report.Some? then Hear(b, report.value) else (b, false)
  }

  /** The handlers run inside `createOrder`, so what they throw takes the place of the reply. */
  function Forwarded(reply: Reply, threw: bool): Reply {
    if threw then OtherFailure(true) else reply
  }

  /** One placement after the other: a known intent is answered from the books, any other goes to the desk. */
  function Place(cfg: Config, limits: Limits, cidOf: string -> string, s: Session, r: Request): Session {
    if r.intent in s.books.views then s
    else
      var cid := cidOf(r.intent);
      var a := Create(cfg, s.desk, cid, r.sub, r.market);
      var (books, threw) := Heard(s.books, a.report);
      var script := Once(Reads(r.sub), Forwarded(a.reply, threw));
      Session(AfterPlacement(limits, script, books, r.intent, cid), a.desk)
  }

  function PlaceAll(cfg: Config, limits: Limits, cidOf: string -> string, s: Session, requests: seq<Request>): Session {
    if requests == [] then s
    else Place(cfg, limits, cidOf, PlaceAll(cfg, limits, cidOf, s, requests[..|requests| - 1]),
      requests[|requests| - 1])
  }

  /** The desk alone, without a manager in front of it. */
  function CreateAll(cfg: Config, cidOf: string -> string, desk: Desk, requests: seq<Request>): Desk {
    if requests == [] then desk
    else
      var r := requests[|requests| - 1];
      Create(cfg, CreateAll(cfg, cidOf, desk, requests[..|requests| - 1]), cidOf(r.intent), r.sub, r.market).desk
  }

  function Intents(requests: seq<Request>): set<string> {
    set r | r in requests :: r.intent
  }

  /** The intents of the requests that can be recorded. */
  function ReadIntents(requests: seq<Request>): set<string> {
    set r | r in requests && Reads(r.sub) :: r.intent
  }

  /** The requests of each intent up to the first that can be recorded. */
  function FirstReads(requests: seq<Request>): seq<Request> {
    if requests == [] then []
    else
      var front, r := requests[..|requests| - 1], requests[|requests| - 1];
      if r.intent in ReadIntents(front) then FirstReads(front) else FirstReads(front) + [r]
  }

  /**
   The intents on record after some requests, oldest first: a readable request of an intent not on
   record adds it, and beyond the limit the oldest goes.
   */
  function Kept(n: nat, requests: seq<Request>): seq<string> {
    if requests == [] then []
    else
      var kept, r := Kept(n, requests[..|requests| - 1]), requests[|requests| - 1];
      if r.intent in kept || !Reads(r.sub) then kept else Tail(kept + [r.intent], n)
  }

  /** The requests whose intent is not on record when they come. */
  function Reaching(n: nat, requests: seq<Request>): seq<Request> {
    if requests == [] then []
    else
      var front, r := requests[..|requests| - 1], requests[|requests| - 1];
      if r.intent in Kept(n, front) then Reaching(n, front) else Reaching(n, front) + [r]
  }

  const NO_BOOKS := Books(map[], [], map[])

  /** The execution filed for a reply of the desk. */
  function FiledFor(intent: string, cid: string, reply: Reply): ExecutionView
    requires reply.OrderReply? || reply.ApiFailure?
  {
    if reply.OrderReply? then ViewOf(reply.shape, intent, EchoedId(reply.shape, cid), ACKED)
    else RejectedView(intent, cid)
  }

  /** Filing it, if the request can be read. */
  function FiledIf(readable: bool, maxLedger: nat, b: Books, v: ExecutionView): Books {
    if readable then File(maxLedger, b, v) else b
  }

  ghost predicate NumericBooks(b: Books) {
    forall i :: i in b.views ==> NumericView(b.views[i])
  }

  /** What the adapter shows and reports of an order can be read. */
  lemma ShapesAreReadable(cfg: Config, desk: Desk, cid: string, sub: Submission, market: Market)
    requires ShowsNumerals(cfg.show)
    ensures var a := Create(cfg, desk, cid, sub, market);
            && (a.reply.ApiFailure? || a.reply.OrderReply?)
            && (a.reply.OrderReply? ==>
                  Readable(a.reply.shape) && forall f :: f in a.reply.shape.fills ==> NumericFill(f))
            && (a.report.Some? ==> Numeric(a.report.value))
  {
    hide PaperAccounting.Placed, Numeral, Div;
  }

  /** On numeric books a numeric report does not throw. */
  lemma HeardNumeric(b: Books, report: Option<Report>)
    requires NumericBooks(b) && (report.Some? ==> Numeric(report.value))
    ensures !Heard(b, report).1 && NumericBooks(Heard(b, report).0)
  {
    if report.Some? && Addressee(b, report.value).Some? {
      NumericNeverThrows(b.views[Addressee(b, report.value).value], report.value);
    }
    hide NumericView, Numeric, Apply, Reported;
  }

  lemma FiledForNumeric(intent: string, cid: string, reply: Reply)
    requires reply.ApiFailure? || (reply.OrderReply? && forall f :: f in reply.shape.fills ==> NumericFill(f))
    ensures NumericView(FiledFor(intent, cid, reply))
  {
    hide ViewOf, RejectedView, NumericView, EchoedId, NumericFill;
    if reply.OrderReply? {
      ViewOfIsNumeric(reply.shape, intent, EchoedId(reply.shape, cid), ACKED);
    } else {
      RejectedViewIsNumeric(intent, cid, "0");
    }
  }

  lemma FileKeepsNumeric(maxLedger: nat, b: Books, v: ExecutionView)
    requires NumericBooks(b) && NumericView(v)
    ensures NumericBooks(File(maxLedger, b, v))
  {
    hide NumericView;
  }

  /** A placement that reaches the desk is filed, acknowledged or rejected, if its request can be read. */
  lemma PlaceFiles(cfg: Config, limits: Limits, cidOf: string -> string, s: Session, r: Request)
    requires ShowsNumerals(cfg.show) && NumericBooks(s.books) && r.intent !in s.books.views
    ensures var cid := cidOf(r.intent);
            var a := Create(cfg, s.desk, cid, r.sub, r.market);
            && (a.reply.ApiFailure? || a.reply.OrderReply?)
            && Place(cfg, limits, cidOf, s, r) ==
               Session(FiledIf(Reads(r.sub), limits.maxLedger, Heard(s.books, a.report).0,
                 FiledFor(r.intent, cid, a.reply)),
                       a.desk)
    ensures NumericBooks(Place(cfg, limits, cidOf, s, r).books)
  {
    var cid := cidOf(r.intent);
    var a := Create(cfg, s.desk, cid, r.sub, r.market);
    var heard := Heard(s.books, a.report).0;
    ShapesAreReadable(cfg, s.desk, cid, r.sub, r.market);
    HeardNumeric(s.books, a.report);
    FiledForNumeric(r.intent, cid, a.reply);
    PlacedReply(limits, Reads(r.sub), heard, r.intent, cid, a.reply);
    FileKeepsNumeric(limits.maxLedger, heard, FiledFor(r.intent, cid, a.reply));
    hide Create, Readable, FiledFor, File, Heard, AfterPlacement, NumericBooks, NumericView, NumericFill, Numeral,
         Reads;
  }

  lemma PlacedReply(limits: Limits, readable: bool, b: Books, intent: string, cid: string, reply: Reply)
    requires reply.ApiFailure? || (reply.OrderReply? && Readable(reply.shape))
    ensures AfterPlacement(limits, Once(readable, reply), b, intent, cid) ==
            FiledIf(readable, limits.maxLedger, b, FiledFor(intent, cid, reply))
  {
    hide Readable, ViewOf, RejectedView, EchoedId, File;
  }

  lemma {:induction false} SessionIsNumeric(
    cfg: Config, limits: Limits, cidOf: string -> string, desk: Desk, requests: seq<Request>)
    requires ShowsNumerals(cfg.show)
    ensures NumericBooks(PlaceAll(cfg, limits, cidOf, Session(NO_BOOKS, desk), requests).books)
  {
    if requests != [] {
      var front, r := requests[..|requests| - 1], requests[|requests| - 1];
      SessionIsNumeric(cfg, limits, cidOf, desk, front);
      var s := PlaceAll(cfg, limits, cidOf, Session(NO_BOOKS, desk), front);
      if r.intent !in s.books.views {
        PlaceFiles(cfg, limits, cidOf, s, r);
      }
      hide NumericBooks, Create, AfterPlacement, Heard, ShowsNumerals;
    }
  }

  lemma FiledForIds(intent: string, cid: string, reply: Reply)
    requires reply.OrderReply? || reply.ApiFailure?
    ensures FiledFor(intent, cid, reply).intentId == intent
    ensures FiledFor(intent, cid, reply).reconciliationState == if reply.OrderReply? then Verdict.ACKED
            else Verdict.REJECTED
    ensures FiledFor(intent, cid, reply).fills == if reply.OrderReply? then reply.shape.fills else []
    ensures FiledFor(intent, cid, reply).clientOrderId == if reply.OrderReply? then EchoedId(reply.shape, cid) else cid
  {
    hide EchoedId, Printed, NumIfAny, AveragePrice;
  }

  lemma HeardKeepsKeys(b: Books, report: Option<Report>)
    ensures Heard(b, report).0.views.Keys == b.views.Keys && Heard(b, report).0.order == b.order
    ensures Heard(b, report).0.byClientOrderId == b.byClientOrderId
  {
    hide Apply;
  }

  lemma IntentsOneMore(front: seq<Request>, r: Request)
    ensures Intents(front + [r]) == Intents(front) + {r.intent}
    ensures |Intents(front)| <= |Intents(front + [r])|
  {
    var all := front + [r];
    assert r in all && forall x :: x in all <==> x in front || x == r;
    forall i ensures i in Intents(all) <==> i in Intents(front) || i == r.intent {
      if i in Intents(front) {
        var x :| x in front && x.intent == i;
        assert x in all;
      }
    }
    SubsetSize(Intents(front), Intents(all));
  }

  lemma ReadIntentsOneMore(front: seq<Request>, r: Request)
    ensures ReadIntents(front + [r]) == ReadIntents(front) + if Reads(r.sub) then {r.intent} else {}
  {
    var all := front + [r];
    hide Reads;
    assert r in all && forall x :: x in all <==> x in front || x == r;
    forall i ensures i in ReadIntents(all) <==> i in ReadIntents(front) || (Reads(r.sub) && i == r.intent) {
      if i in ReadIntents(front) {
        var x :| x in front && Reads(x.sub) && x.intent == i;
        assert x in all;
      }
    }
  }

  // ---------------------------------------------------------------------------
  // What reaches the desk
  // ---------------------------------------------------------------------------

  /** The books hold exactly these intents, in this order. */
  ghost predicate OnFile(b: Books, kept: seq<string>) {
    Files(Outline(b, map[]), kept)
  }

  lemma {:induction false} KeptIsShort(n: nat, requests: seq<Request>)
    ensures |Kept(n, requests)| <= n && Distinct(Kept(n, requests))
  {
    hide Reads;
    if requests != [] {
      KeptIsShort(n, requests[..|requests| - 1]);
    }
  }

  /** Filing an execution under a new intent. */
  lemma FiledNewest(limits: Limits, b: Books, kept: seq<string>, v: ExecutionView)
    requires OnFile(b, kept) && |kept| <= limits.maxLedger && Distinct(kept) && v.intentId !in kept
    ensures OnFile(File(limits.maxLedger, b, v), Tail(kept + [v.intentId], limits.maxLedger))
  {
    assert Tail(kept, limits.maxLedger) == kept;
    FileIsRecord(limits, b, v, map[]);
    RecordNewest(limits, Outline(b, map[]), kept, v.intentId, EntryOf(v));
    hide File, Outline, Record, Files;
  }

  lemma OnFileKeys(b: Books, kept: seq<string>)
    requires OnFile(b, kept)
    ensures forall i :: i in b.views <==> i in kept
  {
    assert Entries(b.views).Keys == b.views.Keys;
  }

  lemma HeardOnFile(b: Books, report: Option<Report>, kept: seq<string>)
    requires OnFile(b, kept)
    ensures OnFile(Heard(b, report).0, kept)
  {
    if report.Some? {
      ReportsKeepOutline(b, report.value, map[]);
    }
    hide Hear, Outline;
  }

  /** One placement: an intent on record changes nothing, any other goes to the desk, and on record if it reads. */
  lemma PlaceOneMore(
    cfg: Config, limits: Limits, cidOf: string -> string, s: Session, r: Request, kept: seq<string>)
    requires ShowsNumerals(cfg.show) && NumericBooks(s.books) && OnFile(s.books, kept)
    requires |kept| <= limits.maxLedger && Distinct(kept)
    ensures var t := Place(cfg, limits, cidOf, s, r);
            && OnFile(t.books, if r.intent in kept || !Reads(r.sub) then kept
               else Tail(kept + [r.intent], limits.maxLedger))
            && t.desk == if r.intent in kept then s.desk else Create(cfg, s.desk, cidOf(r.intent), r.sub, r.market).desk
  {
    OnFileKeys(s.books, kept);
    if r.intent !in kept {
      var cid := cidOf(r.intent);
      var a := Create(cfg, s.desk, cid, r.sub, r.market);
      var heard := Heard(s.books, a.report).0;
      PlaceFiles(cfg, limits, cidOf, s, r);
      var v := FiledFor(r.intent, cid, a.reply);
      HeardOnFile(s.books, a.report, kept);
      FiledForIds(r.intent, cid, a.reply);
      hide Create, Place, FiledFor, File, Heard, ShowsNumerals, NumericBooks, OnFile, Reads, Tail, Distinct;
      if Reads(r.sub) {
        FiledNewest(limits, heard, kept, v);
      }
    }
  }

  /**
   What any sequence of placements leaves, for every ledger size: the account and the orders that
   the reaching requests, straight at the desk, leave; and on record the kept intents. Both are
   told from the requests alone, whatever the desk answered.
   */
  lemma {:induction false} DeskSeesReaching(
    cfg: Config, limits: Limits, cidOf: string -> string, desk: Desk, requests: seq<Request>)
    requires ShowsNumerals(cfg.show)
    ensures var s := PlaceAll(cfg, limits, cidOf, Session(NO_BOOKS, desk), requests);
            && s.desk == CreateAll(cfg, cidOf, desk, Reaching(limits.maxLedger, requests))
            && OnFile(s.books, Kept(limits.maxLedger, requests))
  {
    var n := limits.maxLedger;
    if requests == [] {
      assert Entries(NO_BOOKS.views) == map[];
    } else {
      var front, r := requests[..|requests| - 1], requests[|requests| - 1];
      var s, kept, reaching :=
        PlaceAll(cfg, limits, cidOf, Session(NO_BOOKS, desk), front), Kept(n, front), Reaching(n, front);
      DeskSeesReaching(cfg, limits, cidOf, desk, front);
      SessionIsNumeric(cfg, limits, cidOf, desk, front);
      KeptIsShort(n, front);
      PlaceOneMore(cfg, limits, cidOf, s, r, kept);
      assert (reaching + [r])[..|reaching|] == reaching;
      hide Create, Place, NumericBooks, ShowsNumerals, OnFile, Tail, Distinct, Reads;
    }
  }

  /** With room for all of them, the intents on record are those that could be read. */
  lemma {:induction false} KeptWithRoom(n: nat, requests: seq<Request>)
    requires |Intents(requests)| <= n
    ensures forall i :: i in Kept(n, requests) <==> i in ReadIntents(requests)
    ensures Reaching(n, requests) == FirstReads(requests)
  {
    hide Reads;
    if requests != [] {
      var front, r := requests[..|requests| - 1], requests[|requests| - 1];
      assert requests == front + [r];
      IntentsOneMore(front, r);
      ReadIntentsOneMore(front, r);
      KeptWithRoom(n, front);
      KeptIsShort(n, front);
      var kept := Kept(n, front);
      if r.intent !in kept && Reads(r.sub) {
        assert forall i :: i in ReadIntents(front) ==> i in Intents(front);
        hide Intents, ReadIntents, Kept;
        DistinctWithin(kept + [r.intent], Intents(requests));
      }
    }
  }

  /**
   As long as the ledger holds every intent, a sequence of placements leaves the account and the
   orders that the requests of each intent up to the first readable one, straight at the desk,
   leave: replaying a recorded intent changes nothing, a rejected one included. The intents whose
   requests cannot be read, and only they, leave no record.
   */
  lemma ReplaysChangeNothing(cfg: Config, limits: Limits, cidOf: string -> string, desk: Desk, requests: seq<Request>)
    requires ShowsNumerals(cfg.show) && |Intents(requests)| <= limits.maxLedger
    ensures var s := PlaceAll(cfg, limits, cidOf, Session(NO_BOOKS, desk), requests);
            && s.desk == CreateAll(cfg, cidOf, desk, FirstReads(requests))
            && s.books.views.Keys == ReadIntents(requests)
  {
    DeskSeesReaching(cfg, limits, cidOf, desk, requests);
    KeptWithRoom(limits.maxLedger, requests);
    OnFileKeys(PlaceAll(cfg, limits, cidOf, Session(NO_BOOKS, desk), requests).books, Kept(limits.maxLedger, requests));
    hide PlaceAll, CreateAll, FirstReads, Kept, Reaching, OnFile, ReadIntents;
  }

  lemma PlaceAllOneMore(
    cfg: Config, limits: Limits, cidOf: string -> string, s: Session, front: seq<Request>, r: Request)
    ensures PlaceAll(cfg, limits, cidOf, s, front + [r]) ==
            Place(cfg, limits, cidOf, PlaceAll(cfg, limits, cidOf, s, front), r)
  {
    assert (front + [r])[..|front|] == front;
    hide Place;
  }

  predicate DistinctIntents(requests: seq<Request>) {
    forall i, j :: 0 <= i < j < |requests| ==> requests[i].intent != requests[j].intent
  }

  lemma LastIsNew(front: seq<Request>, r: Request)
    requires DistinctIntents(front + [r])
    ensures r.intent !in Intents(front) && DistinctIntents(front)
  {
    var all := front + [r];
    assert all[|front|] == r;
    assert forall k :: 0 <= k < |front| ==> all[k] == front[k];
  }

  /** The intents of the readable requests, in order. */
  function ReadList(requests: seq<Request>): (list: seq<string>)
    ensures |list| <= |requests|
    ensures forall i :: i in list ==> i in Intents(requests)
  {
    if requests == [] then []
    else
      var front, r := requests[..|requests| - 1], requests[|requests| - 1];
      assert requests == front + [r];
      IntentsOneMore(front, r);
      if Reads(r.sub) then ReadList(front) + [r.intent] else ReadList(front)
  }

  /** Distinct intents are on record as far as their requests can be read, the newest up to the limit. */
  lemma {:induction false} KeptOfDistinct(n: nat, requests: seq<Request>)
    requires DistinctIntents(requests)
    ensures Kept(n, requests) == Tail(ReadList(requests), n) && Distinct(ReadList(requests))
  {
    hide Reads;
    if requests != [] {
      var front, r := requests[..|requests| - 1], requests[|requests| - 1];
      assert requests == front + [r];
      LastIsNew(front, r);
      KeptOfDistinct(n, front);
      var list := ReadList(front);
      assert r.intent !in list;
      TailTwice(list, r.intent, n);
      hide Tail, Intents, DistinctIntents;
    }
  }

  lemma TailTwice(q: seq<string>, i: string, n: nat)
    ensures Tail(Tail(q, n) + [i], n) == Tail(q + [i], n)
    ensures forall x :: x in Tail(q, n) ==> x in q
  {
  }

  /**
   Of requests with different intents, replaying the first reaches the desk again exactly when it
   could not be read, so that it left no record, or more of them than the ledger holds could be
   read, so that its record is gone.
   */
  lemma ReplayRunsAgainIff(cfg: Config, limits: Limits, cidOf: string -> string, desk: Desk, requests: seq<Request>)
    requires ShowsNumerals(cfg.show) && requests != [] && DistinctIntents(requests)
    ensures var s, first := PlaceAll(cfg, limits, cidOf, Session(NO_BOOKS, desk), requests), requests[0];
            PlaceAll(cfg, limits, cidOf, Session(NO_BOOKS, desk), requests + [first]).desk ==
            if !Reads(first.sub) || |ReadList(requests)| > limits.maxLedger
            then Create(cfg, s.desk, cidOf(first.intent), first.sub, first.market).desk else s.desk
  {
    var n, first, start := limits.maxLedger, requests[0], Session(NO_BOOKS, desk);
    var s, kept := PlaceAll(cfg, limits, cidOf, start, requests), Kept(n, requests);
    hide *;
    DeskSeesReaching(cfg, limits, cidOf, desk, requests);
    SessionIsNumeric(cfg, limits, cidOf, desk, requests);
    PlaceAllOneMore(cfg, limits, cidOf, start, requests, first);
    KeptIsShort(n, requests);
    FirstIsKeptIff(n, requests);
    PlaceOneMore(cfg, limits, cidOf, s, first, kept);
  }

  lemma FirstIsKeptIff(n: nat, requests: seq<Request>)
    requires requests != [] && DistinctIntents(requests)
    ensures requests[0].intent in Kept(n, requests) <==> Reads(requests[0].sub) && |ReadList(requests)| <= n
  {
    KeptOfDistinct(n, requests);
    FirstOfReadList(requests);
    var list := ReadList(requests);
    hide Kept, Reads, ReadList, DistinctIntents;
    TailTwice(list, "", n);
    if list != [] {
      FirstOfTail(list, n);
    }
    hide Tail, Distinct;
  }

  lemma FirstOfTail(list: seq<string>, n: nat)
    requires Distinct(list) && list != []
    ensures list[0] in Tail(list, n) <==> |list| <= n
  {
    if |list| <= n {
      assert list[0] in list;
    }
  }

  /** The first request heads the list if it can be read, and is not on it otherwise. */
  lemma {:induction false} FirstOfReadList(requests: seq<Request>)
    requires requests != [] && DistinctIntents(requests)
    ensures var list, i := ReadList(requests), requests[0].intent;
            if Reads(requests[0].sub) then list != [] && list[0] == i else i !in list
  {
    hide Reads;
    var front, r := requests[..|requests| - 1], requests[|requests| - 1];
    assert requests == front + [r];
    if front != [] {
      LastIsNew(front, r);
      FirstOfReadList(front);
    } else {
      assert ReadList(front) == [];
    }
  }

  // ---------------------------------------------------------------------------
  // A request that cannot be read
  // ---------------------------------------------------------------------------

  /** A market order for one unit with a price field that Number(x) and the decimal parser turn down. */
  function WithoutPrice(symbol: string): Submission {
    Submission(symbol, BUY, None, Field(Finite(1.0), true), Some(Field(NotFinite, false)))
  }

  /** One unit at 100, with the mark there too. */
  function OneAtHundred(): Market {
    Quoted(100.0, ExecutionQuote(100.0, 1.0, FILLED))
  }

  lemma OneUnitOpened(dust: real, p: Position, params: OrderParams, quote: ExecutionQuote)
    requires p.side != SHORT && params.side == BUY && params.leverage.None? && quote == OneAtHundred().quote
    ensures var e := Filled(dust, p, BUY, 1.0, 100.0, 1.0);
            e.availableDelta == -100.0 && e.position.side == LONG && e.position.quantity == p.quantity + 1.0
    ensures RequiredMargin(p, params, quote) == 100.0
  {
  }

  /** An account that can afford it buys one unit. */
  lemma OneUnitBought(dust: real, a: Account, params: OrderParams, p: Position, symbol: string)
    requires params == OrderParams(symbol, BUY, MARKET, 1.0, params.price, None)
    requires a.availableBalance >= 100.0 && p == At(a.positions, ToUpper(symbol)) && p.side != SHORT
    ensures var (after, result) := PaperAccounting.Placed(dust, None, a, params, 100.0, OneAtHundred().quote);
            && result.Ok? && after.orders == a.orders + [result.value]
            && after.availableBalance == a.availableBalance - 100.0
            && At(after.positions, ToUpper(symbol)).side == LONG
  {
    OneUnitOpened(dust, p, params, OneAtHundred().quote);
    var e := Filled(dust, p, BUY, 1.0, 100.0, 1.0);
    assert Marked(e.position, 100.0).side == LONG;
    assert At(WithPosition(a, ToUpper(symbol)).positions, ToUpper(symbol)) == p;
    hide Filled, RequiredMargin, Marked, Across;
  }

  /** The price of a market order is not looked at, so one that cannot be read is filled by the desk. */
  lemma FilledRegardless(cfg: Config, desk: Desk, cid: string, symbol: string)
    requires cid != "" && cfg.fees.None? && desk.account.availableBalance >= 100.0
    requires At(desk.account.positions, ToUpper(symbol)).side != SHORT
    ensures var a := Create(cfg, desk, cid, WithoutPrice(symbol), OneAtHundred());
            && a.reply.OrderReply? && |a.desk.account.orders| == |desk.account.orders| + 1
            && a.desk.account.availableBalance == desk.account.availableBalance - 100.0
            && At(a.desk.account.positions, ToUpper(symbol)).side == LONG
  {
    var sub := WithoutPrice(symbol);
    assert TypeOf(sub) == "MARKET";
    var params := ParamsOf(sub);
    OneUnitBought(cfg.dust, desk.account, params, At(desk.account.positions, ToUpper(symbol)), symbol);
    hide PaperAccounting.Placed, ShapeOf, ReportOf, At;
  }

  /**
   One intent, one unit at 100, placed twice with such a price: the simulator fills it twice, and
   the manager has no record of either.
   */
  lemma UnreadablePriceFillsTwice(
    cfg: Config, limits: Limits, cidOf: string -> string, intent: string, symbol: string)
    requires ShowsNumerals(cfg.show) && cfg.fees.None? && cidOf(intent) != ""
    ensures var r := Request(intent, WithoutPrice(symbol), OneAtHundred());
            var s := PlaceAll(cfg, limits, cidOf, Session(NO_BOOKS, Desk(Opening(1000.0), map[])), [r, r]);
            |s.desk.account.orders| == 2 && s.books.views == map[]
  {
    var r := Request(intent, WithoutPrice(symbol), OneAtHundred());
    var desk := Desk(Opening(1000.0), map[]);
    var once := Create(cfg, desk, cidOf(intent), r.sub, r.market).desk;
    FilledRegardless(cfg, desk, cidOf(intent), symbol);
    FilledRegardless(cfg, once, cidOf(intent), symbol);
    DeskSeesReaching(cfg, limits, cidOf, desk, [r, r]);
    assert !Reads(r.sub);
    hide Create, PlaceAll;
    ReachesTwice(cfg, limits.maxLedger, cidOf, desk, r);
    OnFileKeys(PlaceAll(cfg, limits, cidOf, Session(NO_BOOKS, desk), [r, r]).books, []);
  }

  lemma ReachesTwice(cfg: Config, n: nat, cidOf: string -> string, desk: Desk, r: Request)
    requires !Reads(r.sub)
    ensures Kept(n, [r, r]) == []
    ensures var once := Create(cfg, desk, cidOf(r.intent), r.sub, r.market).desk;
            CreateAll(cfg, cidOf, desk, Reaching(n, [r, r])) == Create(cfg, once, cidOf(r.intent), r.sub, r.market).desk
  {
    hide Create, Reads;
    assert [r, r][..1] == [r] && [r][..0] == [];
    assert Kept(n, []) == Kept(n, [r]) == [];
    assert Reaching(n, [r]) == [] + [r] == [r];
    assert Reaching(n, [r, r]) == [r] + [r] == [r, r];
    assert CreateAll(cfg, cidOf, desk, [r]) == Create(cfg, desk, cidOf(r.intent), r.sub, r.market).desk;
  }

  // ---------------------------------------------------------------------------
  // One fill each
  // ---------------------------------------------------------------------------

  ghost predicate Injective(cidOf: string -> string, intents: set<string>) {
    forall a, b :: a in intents && b in intents && cidOf(a) == cidOf(b) ==> a == b
  }

  /** Every id on record is that of its intent. */
  ghost predicate IdsMatch(b: Books, cidOf: string -> string, intents: set<string>) {
    && b.views.Keys <= intents
    && forall c :: c in b.byClientOrderId ==> b.byClientOrderId[c] in intents && cidOf(b.byClientOrderId[c]) == c
  }

  /** A filled execution holds exactly the one fill of its order, a rejected one none. */
  ghost predicate HasOwnFill(s: Session, cidOf: string -> string, i: string)
    requires i in s.books.views
  {
    var v, c := s.books.views[i], cidOf(i);
    || (&& v.reconciliationState == Verdict.ACKED && c in s.desk.orders
        && v.fills == s.desk.orders[c].shape.fills && |v.fills| == 1)
    || (v.reconciliationState == Verdict.REJECTED && v.fills == [])
  }

  ghost predicate OneFillEach(s: Session, cidOf: string -> string) {
    forall i :: i in s.books.views ==> HasOwnFill(s, cidOf, i)
  }

  /** The report of a placement arrives before its execution is filed, so it finds nothing to update. */
  lemma ReportIsIgnored(cfg: Config, b: Books, desk: Desk, cidOf: string -> string, intents: set<string>, r: Request)
    requires IdsMatch(b, cidOf, intents) && Injective(cidOf, intents) && r.intent in intents && r.intent !in b.views
    ensures Heard(b, Create(cfg, desk, cidOf(r.intent), r.sub, r.market).report) == (b, false)
  {
    var cid := cidOf(r.intent);
    var report := Create(cfg, desk, cid, r.sub, r.market).report;
    assert report.Some? ==> report.value.clientOrderId == cid;
    hide Create, Apply;
    if cid in b.byClientOrderId {
      assert b.byClientOrderId[cid] == r.intent;
    }
  }

  lemma FileKeepsIds(maxLedger: nat, b: Books, cidOf: string -> string, intents: set<string>, v: ExecutionView)
    requires IdsMatch(b, cidOf, intents) && v.intentId in intents && v.clientOrderId == cidOf(v.intentId)
    ensures IdsMatch(File(maxLedger, b, v), cidOf, intents)
  {
  }

  /** What the desk shows of an order it creates. */
  lemma CreatedShape(cfg: Config, desk: Desk, cid: string, sub: Submission, market: Market)
    ensures var a := Create(cfg, desk, cid, sub, market);
            && (a.reply.OrderReply? ==>
                  && cid in a.desk.orders && a.desk.orders[cid].shape == a.reply.shape
                  && |a.reply.shape.fills| == 1 && EchoedId(a.reply.shape, cid) == cid)
            && (forall c :: c in desk.orders && c != cid ==> c in a.desk.orders && a.desk.orders[c] == desk.orders[c])
  {
    hide PaperAccounting.Placed;
  }

  lemma PlaceKeepsOwnFills(
    cfg: Config, limits: Limits, cidOf: string -> string, intents: set<string>, s: Session, r: Request)
    requires ShowsNumerals(cfg.show) && Injective(cidOf, intents) && r.intent in intents
    requires NumericBooks(s.books) && IdsMatch(s.books, cidOf, intents) && OneFillEach(s, cidOf)
    ensures var t := Place(cfg, limits, cidOf, s, r);
            IdsMatch(t.books, cidOf, intents) && OneFillEach(t, cidOf)
  {
    if r.intent !in s.books.views {
      var cid := cidOf(r.intent);
      var a := Create(cfg, s.desk, cid, r.sub, r.market);
      var v := FiledFor(r.intent, cid, a.reply);
      PlaceFiles(cfg, limits, cidOf, s, r);
      ReportIsIgnored(cfg, s.books, s.desk, cidOf, intents, r);
      CreatedShape(cfg, s.desk, cid, r.sub, r.market);
      FiledForIds(r.intent, cid, a.reply);
      hide Create, FiledFor, Heard, ShowsNumerals, NumericBooks, EchoedId, Place, File, IdsMatch, Injective, Reads;
      OtherFillsKept(s, cidOf, intents, a.desk, r.intent);
      hide OneFillEach;
      if Reads(r.sub) {
        FileKeepsIds(limits.maxLedger, s.books, cidOf, intents, v);
        FileKeepsOwnFills(limits.maxLedger, Session(s.books, a.desk), cidOf, v);
      }
    }
  }

  /** A new order under the id of an intent that is not on record leaves the recorded fills alone. */
  lemma OtherFillsKept(s: Session, cidOf: string -> string, intents: set<string>, desk: Desk, i: string)
    requires Injective(cidOf, intents) && IdsMatch(s.books, cidOf, intents) && OneFillEach(s, cidOf)
    requires i in intents && i !in s.books.views
    requires forall c :: c in s.desk.orders && c != cidOf(i) ==> c in desk.orders && desk.orders[c] == s.desk.orders[c]
    ensures OneFillEach(Session(s.books, desk), cidOf)
  {
    forall j | j in s.books.views ensures HasOwnFill(Session(s.books, desk), cidOf, j) {
      assert HasOwnFill(s, cidOf, j) && cidOf(j) != cidOf(i);
    }
  }

  /** Filing an execution with its own fill leaves the others with theirs. */
  lemma FileKeepsOwnFills(maxLedger: nat, s: Session, cidOf: string -> string, v: ExecutionView)
    requires OneFillEach(s, cidOf)
    requires var c := cidOf(v.intentId);
             || (&& v.reconciliationState == Verdict.ACKED && c in s.desk.orders
                 && v.fills == s.desk.orders[c].shape.fills && |v.fills| == 1)
             || (v.reconciliationState == Verdict.REJECTED && v.fills == [])
    ensures OneFillEach(Session(File(maxLedger, s.books, v), s.desk), cidOf)
  {
    var t := Session(File(maxLedger, s.books, v), s.desk);
    forall i | i in t.books.views ensures HasOwnFill(t, cidOf, i) {
      if i == v.intentId {
        assert t.books.views[i] == v;
      } else {
        assert i in s.books.views && t.books.views[i] == s.books.views[i] && HasOwnFill(s, cidOf, i);
      }
    }
  }

  /**
   On the paper backend a filled execution holds exactly its order's fill, whatever is replayed or
   dropped from the ledger, as long as no two intents share an id.
   */
  lemma {:induction false} FillsAreNotDoubled(
    cfg: Config, limits: Limits, cidOf: string -> string, intents: set<string>, desk: Desk, requests: seq<Request>)
    requires ShowsNumerals(cfg.show) && Injective(cidOf, intents) && Intents(requests) <= intents
    ensures var s := PlaceAll(cfg, limits, cidOf, Session(NO_BOOKS, desk), requests);
            IdsMatch(s.books, cidOf, intents) && OneFillEach(s, cidOf)
  {
    if requests != [] {
      var front, r := requests[..|requests| - 1], requests[|requests| - 1];
      assert requests == front + [r];
      IntentsOneMore(front, r);
      FillsAreNotDoubled(cfg, limits, cidOf, intents, desk, front);
      SessionIsNumeric(cfg, limits, cidOf, desk, front);
      hide NumericBooks, Place, IdsMatch, OneFillEach, Injective, ShowsNumerals, Intents;
      PlaceKeepsOwnFills(cfg, limits, cidOf, intents, PlaceAll(cfg, limits, cidOf, Session(NO_BOOKS, desk), front), r);
    }
  }

  // ---------------------------------------------------------------------------
  // Where the assumptions bite
  // ---------------------------------------------------------------------------

  /**
   The report of a filled placement adds a fill to an execution already on record exactly when the
   two intents share an id.
   */
  lemma ReportTouchesOtherIff(
    cfg: Config, b: Books, desk: Desk, cidOf: string -> string, intents: set<string>, r: Request, i: string)
    requires ShowsNumerals(cfg.show) && IdsMatch(b, cidOf, intents) && r.intent !in b.views
    requires i in b.views && i != "" && cidOf(i) in b.byClientOrderId && b.byClientOrderId[cidOf(i)] == i
    requires Create(cfg, desk, cidOf(r.intent), r.sub, r.market).reply.OrderReply?
    ensures var heard := Heard(b, Create(cfg, desk, cidOf(r.intent), r.sub, r.market).report).0;
            && i in heard.views
            && (|heard.views[i].fills| == |b.views[i].fills| + 1 <==> cidOf(r.intent) == cidOf(i))
            && (heard.views[i] == b.views[i] <==> cidOf(r.intent) != cidOf(i))
  {
    var cid := cidOf(r.intent);
    CreatedReport(cfg, desk, cid, r.sub, r.market);
    var report := Create(cfg, desk, cid, r.sub, r.market).report;
    assert cid in b.byClientOrderId && b.byClientOrderId[cid] == i ==> cidOf(i) == cid;
    hide Create, ShowsNumerals, Heard, IdsMatch, Apply, CarriesFill;
    HeardAt(b, report, i);
    UntradedReportAddsFill(b.views[i], report.value);
  }

  /**
   So a placement adds a fill to the record of another intent exactly when they share an id; the
   other records it leaves alone, as far as they stay on file.
   */
  lemma PlaceTouchesOtherIff(
    cfg: Config, limits: Limits, cidOf: string -> string, s: Session, intents: set<string>, r: Request, i: string)
    requires ShowsNumerals(cfg.show) && NumericBooks(s.books) && IdsMatch(s.books, cidOf, intents)
    requires r.intent !in s.books.views && i in s.books.views && i != ""
    requires cidOf(i) in s.books.byClientOrderId && s.books.byClientOrderId[cidOf(i)] == i
    requires Create(cfg, s.desk, cidOf(r.intent), r.sub, r.market).reply.OrderReply?
    requires i in Place(cfg, limits, cidOf, s, r).books.views
    ensures var before, after := s.books.views[i], Place(cfg, limits, cidOf, s, r).books.views[i];
            && (|after.fills| == |before.fills| + 1 <==> cidOf(r.intent) == cidOf(i))
            && (after == before <==> cidOf(r.intent) != cidOf(i))
  {
    var cid := cidOf(r.intent);
    var a := Create(cfg, s.desk, cid, r.sub, r.market);
    ReportTouchesOtherIff(cfg, s.books, s.desk, cidOf, intents, r, i);
    PlaceFiles(cfg, limits, cidOf, s, r);
    FiledForIds(r.intent, cid, a.reply);
    FiledKeepsOthers(Reads(r.sub), limits.maxLedger, Heard(s.books, a.report).0, FiledFor(r.intent, cid, a.reply), i);
    hide Create, Place, FiledFor, FiledIf, Heard, ShowsNumerals, NumericBooks, IdsMatch, Reads;
  }

  lemma FiledKeepsOthers(readable: bool, maxLedger: nat, b: Books, v: ExecutionView, i: string)
    requires i in b.views && i != v.intentId && i in FiledIf(readable, maxLedger, b, v).views
    ensures FiledIf(readable, maxLedger, b, v).views[i] == b.views[i]
  {
  }

  /** A report changes the execution its id is filed for, and no other. */
  lemma HeardAt(b: Books, report: Option<Report>, i: string)
    requires report.Some? && i in b.views && i != "" && report.value.clientOrderId != ""
    ensures var c := report.value.clientOrderId;
            && i in Heard(b, report).0.views
            && Heard(b, report).0.views[i] ==
               if c in b.byClientOrderId && b.byClientOrderId[c] == i then Apply(b.views[i], report.value).view
               else b.views[i]
  {
    hide Apply;
  }

  lemma UntradedReportAddsFill(v: ExecutionView, r: Report)
    requires CarriesFill(r) && r.tradeId.None?
    ensures |Apply(v, r).view.fills| == |v.fills| + 1
  {
    AppliedOrReported(v, r);
    hide Apply, Reported;
    assert FillsAfter(v.fills, r) == v.fills + [FillOf(r)];
  }

  lemma FilledIsPositive(
    dust: real, fees: Option<FeeModel>, a: Account, params: OrderParams, price: real, quote: ExecutionQuote)
    ensures var result := PaperAccounting.Placed(dust, fees, a, params, price, quote).1;
            result.Ok? ==> result.value.filledQuantity > 0.0
  {
    hide Filled, PaperAccounting.Settled, Booked, RequiredMargin, Commission, WithPosition;
  }

  lemma ReportCarriesTrade(cfg: Config, cid: string, order: PaperOrder)
    requires ShowsNumerals(cfg.show) && order.filledQuantity > 0.0
    ensures CarriesFill(ReportOf(cfg, cid, order))
  {
    var text := cfg.show(order.filledQuantity);
    assert Numeral(text) && text != "0";
    EmptyIsNoNumeral(text);
    hide Numeral, ShowsNumerals;
  }

  lemma CreatedFrom(cfg: Config, desk: Desk, cid: string, sub: Submission, market: Market)
    requires Create(cfg, desk, cid, sub, market).reply.OrderReply?
    ensures cid != "" && sub.quantity.number.Finite? && market.Quoted?
    ensures var result :=
            PaperAccounting.Placed(cfg.dust, cfg.fees, desk.account, ParamsOf(sub), market.price, market.quote).1;
            result.Ok? && Create(cfg, desk, cid, sub, market).report == Some(ReportOf(cfg, cid, result.value))
  {
    hide PaperAccounting.Placed, ReportOf, ShapeOf;
  }

  /** The report of a created order carries its id, a trade, and no trade id. */
  lemma CreatedReport(cfg: Config, desk: Desk, cid: string, sub: Submission, market: Market)
    requires ShowsNumerals(cfg.show) && Create(cfg, desk, cid, sub, market).reply.OrderReply?
    ensures var report := Create(cfg, desk, cid, sub, market).report;
            report.Some? && report.value.clientOrderId == cid && cid != ""
            && CarriesFill(report.value) && report.value.tradeId.None?
  {
    CreatedFrom(cfg, desk, cid, sub, market);
    hide Create, CarriesFill, ShowsNumerals, ParamsOf, PaperAccounting.Placed;
    var result := PaperAccounting.Placed(cfg.dust, cfg.fees, desk.account, ParamsOf(sub), market.price, market.quote).1;
    FilledIsPositive(cfg.dust, cfg.fees, desk.account, ParamsOf(sub), market.price, market.quote);
    ReportCarriesTrade(cfg, cid, result.value);
  }

  lemma EmptyIsNoNumeral(text: string)
    requires Numeral(text)
    ensures text != ""
  {
  }

  // ---------------------------------------------------------------------------
  // Paper sessions as runs of the protocol
  // ---------------------------------------------------------------------------

  /** Placements of these requests are all that happens, and no answer fails to be read. */
  ghost predicate PlacesThese(events: seq<Event>, cidOf: string -> string, requests: seq<Request>) {
    forall k :: 0 <= k < |events| ==>
      && (events[k].Place? ==> events[k] in PlacesOf(cidOf, requests))
      && !events[k].Cancelled? && (events[k].CreateReturns? ==> events[k].created != Unreadable)
  }

  function PlacesOf(cidOf: string -> string, requests: seq<Request>): set<Event> {
    set r | r in requests :: PlaceOf(cidOf, r)
  }

  function PlaceOf(cidOf: string -> string, r: Request): Event {
    Event.Place(Use(r.intent, cidOf(r.intent)), Reads(r.sub))
  }

  function UsesOf(cidOf: string -> string, requests: seq<Request>): set<Use> {
    set r | r in requests :: Use(r.intent, cidOf(r.intent))
  }

  /** The calls behind some requests: placements, no cancellations. */
  function CallsOf(cidOf: string -> string, requests: seq<Request>): Calls {
    Calls(UsesOf(cidOf, requests), {})
  }

  lemma TheseAreCalls(events: seq<Event>, cidOf: string -> string, requests: seq<Request>)
    requires PlacesThese(events, cidOf, requests)
    ensures CallsOnly(events, CallsOf(cidOf, requests))
  {
    forall k | 0 <= k < |events| && events[k].Place? ensures events[k].use in UsesOf(cidOf, requests) {
      var r :| r in requests && events[k] == PlaceOf(cidOf, r);
    }
  }

  function IdsAccepted(accepted: set<Message>): set<string> {
    set m | m in accepted :: m.cid
  }

  /** The state of the protocol behind a session: its books, and an accepted message for every order of the desk. */
  ghost predicate Mirrors(sys: System, s: Session) {
    Quiet(sys) && sys.manager == Outline(s.books, map[]) && IdsAccepted(sys.accepted) == s.desk.orders.Keys
  }

  function AnswerOf(reply: Reply): CreateReply {
    if reply.OrderReply? then Created else ApiError
  }

  /** Filing what the desk answered is recording it. */
  lemma FiledIsRecorded(
    limits: Limits, b: Books, report: Option<Report>, intent: string, cid: string, readable: bool, reply: Reply)
    requires reply.OrderReply? || reply.ApiFailure?
    requires reply.OrderReply? ==> EchoedId(reply.shape, cid) == cid
    ensures Outline(FiledIf(readable, limits.maxLedger, Heard(b, report).0, FiledFor(intent, cid, reply)), map[]) ==
            Recorded(limits, Outline(b, map[]), Use(intent, cid), readable, AnswerOf(reply))
  {
    var v := FiledFor(intent, cid, reply);
    FiledForIds(intent, cid, reply);
    FileIsRecord(limits, Heard(b, report).0, v, map[]);
    if report.Some? {
      ReportsKeepOutline(b, report.value, map[]);
    }
    assert EntryOf(v) == Entry(cid, if reply.OrderReply? then Verdict.ACKED else Verdict.REJECTED);
    hide Outline, File, Record, FiledFor, EchoedId, Hear;
  }

  lemma MirrorOneMore(sys: System, t: System, desk: Desk, after: Desk, m: Message, created: bool)
    requires IdsAccepted(sys.accepted) == desk.orders.Keys
    requires t.accepted == if created then sys.accepted + {m} else sys.accepted
    requires after.orders.Keys == if created then desk.orders.Keys + {m.cid} else desk.orders.Keys
    ensures IdsAccepted(t.accepted) == after.orders.Keys
  {
    if created {
      assert forall x :: x in t.accepted <==> x in sys.accepted || x == m;
      assert m in t.accepted;
      forall c ensures c in IdsAccepted(t.accepted) <==> c in IdsAccepted(sys.accepted) || c == m.cid {
        if x :| x in sys.accepted && x.cid == c {
          assert x in t.accepted;
        }
      }
    }
  }

  lemma CreatedOrders(cfg: Config, desk: Desk, cid: string, sub: Submission, market: Market)
    ensures var a := Create(cfg, desk, cid, sub, market);
            && (a.reply.OrderReply? || a.reply.ApiFailure?)
            && a.desk.orders.Keys == if a.reply.OrderReply? then desk.orders.Keys + {cid} else desk.orders.Keys
  {
    hide PaperAccounting.Placed, ShapeOf, ReportOf;
  }

  /**
   Every session on the paper backend is a run of the placement protocol in which everything that
   the protocol may trust is kept: the adapter's answers are true, final and readable, and the
   requests are readable as far as that is trusted.
   */
  lemma {:induction false} PaperSessionsAreTrusted(
    cfg: Config, trust: Trust, limits: Limits, cidOf: string -> string, desk: Desk, requests: seq<Request>)
    returns (events: seq<Event>, sys: System)
    requires ShowsNumerals(cfg.show) && desk.orders == map[]
    requires trust.requestsAreReadable ==> forall r :: r in requests ==> Reads(r.sub)
    ensures Run(trust, limits, events) == Some(sys) && PlacesThese(events, cidOf, requests)
    ensures Mirrors(sys, PlaceAll(cfg, limits, cidOf, Session(NO_BOOKS, desk), requests))
  {
    if requests == [] {
      events, sys := [], START;
      Beginning(trust, limits);
      assert Entries(NO_BOOKS.views) == map[];
    } else {
      var front, r := requests[..|requests| - 1], requests[|requests| - 1];
      assert requests == front + [r] && r in requests && forall x :: x in front ==> x in requests;
      hide Reads;
      events, sys := PaperSessionsAreTrusted(cfg, trust, limits, cidOf, desk, front);
      MoreRequests(events, cidOf, front, r);
      var s := PlaceAll(cfg, limits, cidOf, Session(NO_BOOKS, desk), front);
      SessionIsNumeric(cfg, limits, cidOf, desk, front);
      assert PlaceAll(cfg, limits, cidOf, Session(NO_BOOKS, desk), requests) == Place(cfg, limits, cidOf, s, r);
      hide Run, Mirrors, NumericBooks, ShowsNumerals, Create, AfterPlacement, Heard, PlacesThese;
      if r.intent !in s.books.views {
        hide PlaceAll;
        events, sys := NewPlacementMirrored(cfg, trust, limits, cidOf, s, requests, r, events, sys);
      }
    }
  }

  lemma MoreRequests(events: seq<Event>, cidOf: string -> string, front: seq<Request>, r: Request)
    requires PlacesThese(events, cidOf, front)
    ensures PlacesThese(events, cidOf, front + [r]) && PlaceOf(cidOf, r) in PlacesOf(cidOf, front + [r])
  {
    assert r in front + [r] && forall x :: x in front ==> x in front + [r];
    assert forall e :: e in PlacesOf(cidOf, front) ==> e in PlacesOf(cidOf, front + [r]);
  }

  /** What a new placement does to the outline of the books and to the orders on file. */
  lemma NewPlacementOutline(
    cfg: Config, trust: Trust, limits: Limits, cidOf: string -> string, s: Session, r: Request)
    returns (reply: CreateReply)
    requires ShowsNumerals(cfg.show) && NumericBooks(s.books) && r.intent !in s.books.views
    requires trust.requestsAreReadable ==> Reads(r.sub)
    ensures Answerable(trust, Reads(r.sub), reply) && !reply.Unreadable?
    ensures var t, u := Place(cfg, limits, cidOf, s, r), Use(r.intent, cidOf(r.intent));
            && Outline(t.books, map[]) == Recorded(limits, Outline(s.books, map[]), u, Reads(r.sub), reply)
            && t.desk.orders.Keys == if reply.ApiError? then s.desk.orders.Keys else s.desk.orders.Keys + {u.cid}
  {
    var cid := cidOf(r.intent);
    var a := Create(cfg, s.desk, cid, r.sub, r.market);
    reply := AnswerOf(a.reply);
    PlaceFiles(cfg, limits, cidOf, s, r);
    CreatedOrders(cfg, s.desk, cid, r.sub, r.market);
    CreatedShape(cfg, s.desk, cid, r.sub, r.market);
    FiledIsRecorded(limits, s.books, a.report, r.intent, cid, Reads(r.sub), a.reply);
    hide Place, Create, FiledIf, Heard, FiledFor, Outline, Recorded, NumericBooks, ShowsNumerals, EchoedId, Reads;
  }

  lemma NewPlacementMirrored(
    cfg: Config, trust: Trust, limits: Limits, cidOf: string -> string, s: Session, requests: seq<Request>, r: Request,
    before: seq<Event>, sys: System)
    returns (events: seq<Event>, t: System)
    requires ShowsNumerals(cfg.show) && NumericBooks(s.books) && r.intent !in s.books.views
    requires trust.requestsAreReadable ==> Reads(r.sub)
    requires Run(trust, limits, before) == Some(sys) && Mirrors(sys, s) && PlacesThese(before, cidOf, requests)
    requires PlaceOf(cidOf, r) in PlacesOf(cidOf, requests)
    ensures Run(trust, limits, events) == Some(t) && Mirrors(t, Place(cfg, limits, cidOf, s, r))
    ensures PlacesThese(events, cidOf, requests)
  {
    var u := Use(r.intent, cidOf(r.intent));
    assert r.intent !in sys.manager.ledger;
    var reply := NewPlacementOutline(cfg, trust, limits, cidOf, s, r);
    var m := Message(u.cid, CountOf(sys.sends, u.cid));
    EpisodePlaces(before, cidOf, requests, r, m, reply);
    hide Run, Quiet, Place, Outline, Recorded, NumericBooks, ShowsNumerals, Answerable, IdsAccepted, Episode, Reads;
    hide PlacesThese, PlacesOf;
    events, t := PlaceOne(trust, limits, before, sys, u, Reads(r.sub), reply);
    MirrorOneMore(sys, t, s.desk, Place(cfg, limits, cidOf, s, r).desk, m, !reply.ApiError?);
  }

  lemma EpisodePlaces(
    before: seq<Event>, cidOf: string -> string, requests: seq<Request>, r: Request, m: Message, reply: CreateReply)
    requires PlacesThese(before, cidOf, requests) && PlaceOf(cidOf, r) in PlacesOf(cidOf, requests)
    requires !reply.Unreadable?
    ensures PlacesThese(before + Episode(Use(r.intent, cidOf(r.intent)), Reads(r.sub), m, reply), cidOf, requests)
  {
    hide Reads, PlacesOf;
  }

  /** Whether every request placed under an id could be read. */
  predicate AllRead(cidOf: string -> string, requests: seq<Request>, cid: string) {
    forall r :: r in requests && cidOf(r.intent) == cid ==> Reads(r.sub)
  }

  lemma TheseAreReadable(events: seq<Event>, cidOf: string -> string, requests: seq<Request>, cid: string)
    requires PlacesThese(events, cidOf, requests) && AllRead(cidOf, requests, cid)
    ensures AllReadable(events, cid)
  {
    hide Reads;
    forall k | 0 <= k < |events| && events[k].Place? && events[k].use.cid == cid ensures events[k].readable {
      var r :| r in requests && events[k] == PlaceOf(cidOf, r);
    }
  }

  lemma OrdersOnFile(sys: System, s: Session, c: string)
    requires Mirrors(sys, s)
    ensures OrdersUnder(sys, c) != {} <==> c in s.desk.orders
  {
    assert OrdersUnder(sys, c) != {} <==> c in IdsAccepted(sys.accepted) by {
      if m :| m in OrdersUnder(sys, c) {
        assert m in sys.accepted;
      }
      if c in IdsAccepted(sys.accepted) {
        var m :| m in sys.accepted && m.cid == c;
        assert m in OrdersUnder(sys, c);
      }
    }
  }

  /**
   So every execution on the paper backend is acked or rejected, an acked one has its order at the
   desk, and a rejected one has none there unless a request under its id could not be read.
   */
  lemma PaperOutcomesAreTrue(
    cfg: Config, limits: Limits, cidOf: string -> string, desk: Desk, requests: seq<Request>, i: string)
    requires ShowsNumerals(cfg.show) && desk.orders == map[]
    requires OneOwner(UsesOf(cidOf, requests)) && Fits(limits, CallsOf(cidOf, requests))
    requires i in PlaceAll(cfg, limits, cidOf, Session(NO_BOOKS, desk), requests).books.views
    ensures var s := PlaceAll(cfg, limits, cidOf, Session(NO_BOOKS, desk), requests);
            var v := s.books.views[i];
            && (v.reconciliationState == Verdict.ACKED || v.reconciliationState == Verdict.REJECTED)
            && (v.reconciliationState == Verdict.ACKED ==> v.clientOrderId in s.desk.orders)
            && (v.reconciliationState == Verdict.REJECTED && AllRead(cidOf, requests, v.clientOrderId) ==>
                  v.clientOrderId !in s.desk.orders)
  {
    AckedOrRejected(cfg, limits, cidOf, desk, requests, i);
    var trust := Trust(true, true, false);
    var events, sys := PaperSessionsAreTrusted(cfg, trust, limits, cidOf, desk, requests);
    TheseAreCalls(events, cidOf, requests);
    var s := PlaceAll(cfg, limits, cidOf, Session(NO_BOOKS, desk), requests);
    assert sys.manager.ledger[i] == EntryOf(s.books.views[i]);
    var c := s.books.views[i].clientOrderId;
    OutcomesAreTrue(trust, limits, CallsOf(cidOf, requests), events, i);
    if AllRead(cidOf, requests, c) {
      TheseAreReadable(events, cidOf, requests, c);
    }
    OrdersOnFile(sys, s, c);
    hide Run, PlaceAll, Outline, PlacesThese, AllRead, AllReadable, Mirrors;
  }

  lemma AckedOrRejected(
    cfg: Config, limits: Limits, cidOf: string -> string, desk: Desk, requests: seq<Request>, i: string)
    requires ShowsNumerals(cfg.show) && OneOwner(UsesOf(cidOf, requests))
    requires i in PlaceAll(cfg, limits, cidOf, Session(NO_BOOKS, desk), requests).books.views
    ensures var v := PlaceAll(cfg, limits, cidOf, Session(NO_BOOKS, desk), requests).books.views[i];
            v.reconciliationState == Verdict.ACKED || v.reconciliationState == Verdict.REJECTED
  {
    var intents := Intents(requests);
    forall a, b | a in intents && b in intents && cidOf(a) == cidOf(b) ensures a == b {
      assert Use(a, cidOf(a)) in UsesOf(cidOf, requests) && Use(b, cidOf(b)) in UsesOf(cidOf, requests);
    }
    hide PlaceAll, Intents, UsesOf;
    FillsAreNotDoubled(cfg, limits, cidOf, intents, desk, requests);
    var s := PlaceAll(cfg, limits, cidOf, Session(NO_BOOKS, desk), requests);
    assert HasOwnFill(s, cidOf, i);
  }
}
