/**
 The paper backend as the object it is (src/execution/paper.ts): a map of order records in front
 of the engine. Its methods are proved to compute the functions of PaperBackend.
 */
module PaperAdapter {
  import opened ExecutionBooks
  import opened ExecutionManagement
  import opened PaperBackend
  import opened StreamFills
  import opened Text
  import opened Wrappers
  import Protocol = Placement
  import Engine = PaperEngine
  import Accounting = PaperAccounting

  class PaperExecutionAdapter {
    const engine: Engine.PaperTradingEngine
    const commissionAsset: string
    /** How numbers print. */
    const show: real -> string
    var orders: map<string, OrderRecord>

    constructor (engine: Engine.PaperTradingEngine, commissionAsset: string, show: real -> string)
      ensures this.engine == engine && orders == map[]
      ensures this.commissionAsset == commissionAsset && this.show == show
    {
      this.engine, this.commissionAsset, this.show := engine, commissionAsset, show;
      orders := map[];
    }

    function Settings(): Config {
      Config(engine.dust, engine.feeModel, commissionAsset, show)
    }

    ghost function State(): Desk
      reads this, engine, engine.positions.Values
    {
      Desk(engine.State(), orders)
    }

    /** Checks the submission, has the engine fill it, files the order and reports the fill. */
    method CreateOrder(clientOrderId: string, submission: Submission, market: Market)
      returns (reply: Reply, report: Option<Report>)
      requires engine.Valid()
      modifies this`orders, engine, engine.positions.Values
      ensures engine.Valid()
      ensures Answer(State(), reply, report) == Create(Settings(), old(State()), clientOrderId, submission, market)
    {
      hide Accounting.Placed, ShapeOf, ReportOf;
      if clientOrderId == "" {
        return ApiFailure(MISSING_PARAMETER), None;
      }
      var orderType := TypeOf(submission);
      if orderType != "MARKET" && orderType != "LIMIT" {
        return ApiFailure(INVALID_ORDER_TYPE), None;
      }
      if !Positive(submission.quantity.number) {
        return ApiFailure(INVALID_NUMBER), None;
      }
      if orderType == "LIMIT" && !(submission.price.Some? && Positive(submission.price.value.number)) {
        return ApiFailure(INVALID_NUMBER), None;
      }
      if market.Unavailable? {
        return ApiFailure(REJECTED_ORDER), None;
      }
      var result := engine.PlaceOrder(ParamsOf(submission), market.price, market.quote);
      if result.Err? {
        return ApiFailure(REJECTED_ORDER), None;
      }
      var shape := ShapeOf(Settings(), clientOrderId, result.value);
      orders := orders[clientOrderId := OrderRecord(result.value.symbol, shape)];
      reply, report := OrderReply(shape), Some(ReportOf(Settings(), clientOrderId, result.value));
    }

    method FetchOrder(symbol: string, clientOrderId: string) returns (reply: Reply)
      ensures reply == Fetch(State(), symbol, clientOrderId)
    {
      if clientOrderId !in orders || orders[clientOrderId].symbol != ToUpper(symbol) {
        return ApiFailure(NO_SUCH_ORDER);
      }
      reply := OrderReply(orders[clientOrderId].shape);
    }

    /** Orders fill at once, so there is never anything to cancel. */
    method CancelOrder(symbol: string, clientOrderId: string) returns (reply: Reply)
      ensures reply == ApiFailure(UNKNOWN_ORDER)
    {
      if clientOrderId !in orders || orders[clientOrderId].symbol != ToUpper(symbol) {
        return ApiFailure(UNKNOWN_ORDER);
      }
      reply := ApiFailure(UNKNOWN_ORDER);
    }
  }

  /** The manager's side of a placement: the report of the fill, then the reply or what the report's handler threw. */
  method TakeAnswer(manager: ExecutionManager, intentId: string, readable: bool, reply: Reply, report: Option<Report>)
    requires manager.Valid() && manager.inFlight == map[] && intentId !in manager.Contents().views
    modifies manager, manager.ledger.Values
    ensures manager.Valid() && manager.inFlight == map[]
    ensures var (heard, threw) := Heard(old(manager.Contents()), report);
            manager.Contents() ==
            AfterPlacement(manager.limits, Once(readable, Forwarded(reply, threw)), heard, intentId,
                           DerivedId(manager.clientOrderIdPrefix, intentId))
  {
    HeardKeepsKeys(manager.Contents(), report);
    ghost var heard := Heard(manager.Contents(), report);
    PlacingIsPlacement(manager.limits, Once(readable, Forwarded(reply, heard.1)), heard.0, intentId,
                       DerivedId(manager.clientOrderIdPrefix, intentId));
    assert report.Some? ==> heard == Hear(manager.Contents(), report.value);
    assert report.None? ==> heard == (manager.Contents(), false);
    hide *;
    var threw := false;
    if report.Some? {
      threw := manager.OnExecutionReport(report.value);
    }
    assert (manager.Contents(), threw) == heard;
    var placed := manager.PlaceOrder(Once(readable, Forwarded(reply, threw)), intentId, None);
  }

  lemma PlacingIsPlacement(limits: Protocol.Limits, script: Script, b: Books, intent: string, cid: string)
    requires intent !in b.views
    ensures Placing(limits, script, b, map[], intent, cid).0 == AfterPlacement(limits, script, b, intent, cid)
  {
    hide AfterPlacement, Submitted, ResultOf;
  }

  /** A placement of a new intent: the adapter creates, the manager takes the answer. */
  method PlaceNewOnPaper(manager: ExecutionManager, adapter: PaperExecutionAdapter, cid: string, r: Request)
    returns (reply: Reply, report: Option<Report>)
    requires manager.Valid() && adapter.engine.Valid()
    requires manager.inFlight == map[] && cid == DerivedId(manager.clientOrderIdPrefix, r.intent)
    requires r.intent !in manager.Contents().views
    modifies manager, manager.ledger.Values, adapter`orders, adapter.engine, adapter.engine.positions.Values
    ensures manager.Valid() && adapter.engine.Valid() && manager.inFlight == map[]
    ensures Answer(adapter.State(), reply, report) ==
            Create(adapter.Settings(), old(adapter.State()), cid, r.sub, r.market)
    ensures var (heard, threw) := Heard(old(manager.Contents()), report);
            var script := Once(Reads(r.sub), Forwarded(reply, threw));
            manager.Contents() == AfterPlacement(manager.limits, script, heard, r.intent, cid)
  {
    hide *;
    reply, report := adapter.CreateOrder(cid, r.sub, r.market);
    TakeAnswer(manager, r.intent, Reads(r.sub), reply, report);
  }

  lemma PlaceInParts(
    cfg: Config, limits: Protocol.Limits, cidOf: string -> string, b: Books, desk: Desk, r: Request,
    after: Desk, reply: Reply, report: Option<Report>)
    ensures r.intent in b.views ==> Place(cfg, limits, cidOf, Session(b, desk), r) == Session(b, desk)
    ensures r.intent !in b.views
            && Answer(after, reply, report) == Create(cfg, desk, cidOf(r.intent), r.sub, r.market) ==>
              var (heard, threw) := Heard(b, report);
              var script := Once(Reads(r.sub), Forwarded(reply, threw));
              Place(cfg, limits, cidOf, Session(b, desk), r) ==
              Session(AfterPlacement(limits, script, heard, r.intent, cidOf(r.intent)), after)
  {
    hide Create, AfterPlacement, Heard, Forwarded, Reads;
  }

  method IsKnown(manager: ExecutionManager, intentId: string) returns (known: bool)
    ensures known <==> intentId in manager.Contents().views
  {
    var existing := manager.GetExecution(intentId);
    known := existing.Some?;
  }

  /** One placement through the manager and the adapter together, in the order their effects happen. */
  method PlaceOnPaper(manager: ExecutionManager, adapter: PaperExecutionAdapter, cidOf: string -> string, r: Request)
    requires manager.Valid() && adapter.engine.Valid()
    requires manager.inFlight == map[] && cidOf(r.intent) == DerivedId(manager.clientOrderIdPrefix, r.intent)
    modifies manager, manager.ledger.Values, adapter`orders, adapter.engine, adapter.engine.positions.Values
    ensures manager.Valid() && adapter.engine.Valid() && manager.inFlight == map[]
    ensures Session(manager.Contents(), adapter.State()) ==
            Place(adapter.Settings(), manager.limits, cidOf, Session(old(manager.Contents()), old(adapter.State())), r)
  {
    hide *;
    ghost var books, desk := manager.Contents(), adapter.State();
    var known := IsKnown(manager, r.intent);
    var reply, report := OtherFailure(false), None;
    if !known {
      reply, report := PlaceNewOnPaper(manager, adapter, cidOf(r.intent), r);
    }
    PlaceInParts(adapter.Settings(), manager.limits, cidOf, books, desk, r, adapter.State(), reply, report);
  }
}
