/**
 Placements on the paper backend that overlap (src/execution/ExecutionManager.ts over
 src/execution/paper.ts and src/paper/PaperTradingEngine.ts).

 A placement runs in five pieces: the manager starts it and the adapter checks it, the engine
 books it behind its awaits, the adapter files and reports the order, the manager takes the
 reply, the manager forgets the placement. Pieces of different placements interleave freely. Every
 interleaving is a run of the placement protocol, so the simulator fills an id at most once.
 */
module PaperOverlap {
  import opened ExecutionBooks
  import opened PaperBackend
  import opened Placement
  import opened PlacementLimits
  import opened PlacementSafety
  import opened StreamFills
  import opened Sums
  import opened Wrappers
  import Accounting = PaperAccounting
  import Models = PaperModels

  /** Where a placement is: at the engine, booked, answered, or settled and about to be forgotten. */
  datatype Stage = Asked | Booked(order: Accounting.PaperOrder) | Answering(reply: Reply) | Over

  datatype Flight = Flight(intent: string, sub: Submission, stage: Stage)

  /** The manager's books, the placements in flight, the desk, and the ids in the order the engine filled them. */
  datatype Floor = Floor(books: Books, flights: map<string, Flight>, desk: Desk, fills: seq<string>)

  datatype Piece =
    | Begin(use: Use, sub: Submission)
    | Engine(cid: string, market: Market)
    | Show(cid: string)
    | Take(cid: string)
    | Close(cid: string)

  function MoveOn(f: Floor, cid: string, stage: Stage): Floor
    requires cid in f.flights
  {
    f.(flights := f.flights[cid := f.flights[cid].(stage := stage)])
  }

  /** `placeOrder` up to its first await, the adapter's own checks included. */
  function Begun(f: Floor, u: Use, sub: Submission): Floor {
    var refused := Refused(u.cid, sub);
    var stage := if refused.Some? then Answering(ApiFailure(refused.value)) else Asked;
    f.(flights := f.flights[u.cid := Flight(u.intent, sub, stage)])
  }

  /** The engine's `placeOrder` behind its awaits. */
  function Executed(cfg: Config, f: Floor, cid: string, market: Market): Floor
    requires cid in f.flights && f.flights[cid].sub.quantity.number.Finite?
  {
    if market.Unavailable? then MoveOn(f, cid, Answering(ApiFailure(REJECTED_ORDER)))
    else
      var params := ParamsOf(f.flights[cid].sub);
      var (account, result) :=
        Accounting.Placed(cfg.dust, cfg.fees, f.desk.account, params, market.price, market.quote);
      var g := f.(desk := f.desk.(account := account));
      match result
      case Err(_) => MoveOn(g, cid, Answering(ApiFailure(REJECTED_ORDER)))
      case Ok(order) => MoveOn(g, cid, Booked(order)).(fills := f.fills + [cid])
  }

  /** The adapter files the order and reports its fill. */
  function Shown(cfg: Config, f: Floor, cid: string, order: Accounting.PaperOrder): Floor
    requires cid in f.flights
  {
    var shape := ShapeOf(cfg, cid, order);
    var (books, threw) := Hear(f.books, ReportOf(cfg, cid, order));
    var desk := f.desk.(orders := f.desk.orders[cid := OrderRecord(order.symbol, shape)]);
    MoveOn(f.(books := books, desk := desk), cid, Answering(Forwarded(OrderReply(shape), threw)))
  }

  /** The manager takes the reply, and files what it can. */
  function Taken(limits: Limits, f: Floor, cid: string, reply: Reply): Floor
    requires cid in f.flights
  {
    var fl := f.flights[cid];
    var books := AfterPlacement(limits, Once(Reads(fl.sub), reply), f.books, fl.intent, cid);
    MoveOn(f.(books := books), cid, Over)
  }

  /** A piece runs if it is the placement's turn; otherwise nothing happens. */
  function Advance(cfg: Config, limits: Limits, f: Floor, p: Piece): Floor {
    match p
    case Begin(u, sub) => if u.intent in f.books.views || u.cid in f.flights then f else Begun(f, u, sub)
    case Engine(cid, market) =>
      if cid in f.flights && f.flights[cid].stage.Asked? && f.flights[cid].sub.quantity.number.Finite?
      then Executed(cfg, f, cid, market) else f
    case Show(cid) =>
      if cid in f.flights && f.flights[cid].stage.Booked? then Shown(cfg, f, cid, f.flights[cid].stage.order) else f
    case Take(cid) =>
      if cid in f.flights && f.flights[cid].stage.Answering? then Taken(limits, f, cid, f.flights[cid].stage.reply)
      else f
    case Close(cid) =>
      if cid in f.flights && f.flights[cid].stage.Over? then f.(flights := f.flights - {cid}) else f
  }

  function Worked(cfg: Config, limits: Limits, account: Accounting.Account, pieces: seq<Piece>): Floor {
    if pieces == [] then Floor(NO_BOOKS, map[], Desk(account, map[]), [])
    else Advance(cfg, limits, Worked(cfg, limits, account, pieces[..|pieces| - 1]), pieces[|pieces| - 1])
  }

  // ---------------------------------------------------------------------------
  // The state of the protocol behind a floor
  // ---------------------------------------------------------------------------

  /** Where the message of a placement is at each stage. */
  ghost predicate Follows(fl: Flight, s: System, cid: string)
    requires cid in s.manager.inFlight
  {
    var t := s.manager.inFlight[cid];
    var m := Message(cid, t.message);
    && t.intent == fl.intent && t.readable == Reads(fl.sub)
    && (!fl.stage.Over? ==> t.phase == Sending(0))
    && match fl.stage
       case Asked => m in s.transit
       case Booked(_) => m in s.accepted && m !in s.transit
       case Answering(reply) =>
         && m !in s.transit
         && (reply.ApiFailure? || (reply.OrderReply? && Readable(reply.shape)))
         && (reply.OrderReply? ==> m in s.accepted && EchoedId(reply.shape, cid) == cid && NumericShape(reply.shape))
         && (reply.ApiFailure? ==> m !in s.accepted)
       case Over => t.phase.Settled?
  }

  ghost predicate NumericShape(shape: OrderShape) {
    forall f :: f in shape.fills ==> NumericFill(f)
  }

  /** Nothing is on the wire and accepted, and numbers count up. */
  ghost predicate Numbered(s: System) {
    && s.transit !! s.accepted
    && forall m :: m in s.transit + s.accepted ==> m.n < CountOf(s.sends, m.cid)
  }

  /** The engine's fills are the accepted messages, in the order of this list. */
  ghost predicate Logged(s: System, fills: seq<string>, log: seq<Message>) {
    && |log| == |fills| && Distinct(log)
    && forall k :: 0 <= k < |log| ==> log[k] in s.accepted && log[k].cid == fills[k]
  }

  ghost predicate FlightsFollow(f: Floor, s: System) {
    && f.flights.Keys == s.manager.inFlight.Keys
    && forall c :: c in f.flights ==> Follows(f.flights[c], s, c)
  }

  ghost predicate Tracks(f: Floor, s: System, log: seq<Message>) {
    && NumericBooks(f.books)
    && Outline(f.books, s.manager.inFlight) == s.manager
    && FlightsFollow(f, s)
    && Numbered(s)
    && Logged(s, f.fills, log)
  }

  /** The placements among some pieces. */
  function UsesIn(pieces: seq<Piece>): set<Use> {
    set p | p in pieces && p.Begin? :: p.use
  }

  // ---------------------------------------------------------------------------
  // One piece
  // ---------------------------------------------------------------------------

  lemma OtherFollows(fl: Flight, s: System, t: System, c: string)
    requires c in s.manager.inFlight && c in t.manager.inFlight && t.manager.inFlight[c] == s.manager.inFlight[c]
    requires Follows(fl, s, c)
    requires var m := Message(c, s.manager.inFlight[c].message);
             (m in t.transit <==> m in s.transit) && (m in t.accepted <==> m in s.accepted)
    ensures Follows(fl, t, c)
  {
  }

  /** A piece of one placement leaves the others where they are. */
  lemma FlightsStay(f: Floor, g: Floor, s: System, t: System, cid: string)
    requires FlightsFollow(f, s) && cid in t.manager.inFlight
    requires t.manager.inFlight.Keys == s.manager.inFlight.Keys + {cid} && g.flights.Keys == f.flights.Keys + {cid}
    requires forall c :: c in f.flights && c != cid ==>
               t.manager.inFlight[c] == s.manager.inFlight[c] && g.flights[c] == f.flights[c]
    requires forall m: Message :: m.cid != cid ==>
             (m in t.transit <==> m in s.transit) && (m in t.accepted <==> m in s.accepted)
    requires cid in g.flights && Follows(g.flights[cid], t, cid)
    ensures FlightsFollow(g, t)
  {
    forall c | c in g.flights ensures Follows(g.flights[c], t, c) {
      if c != cid {
        OtherFollows(f.flights[c], s, t, c);
      }
    }
  }

  lemma LogStays(s: System, t: System, fills: seq<string>, log: seq<Message>)
    requires Logged(s, fills, log) && s.accepted <= t.accepted
    ensures Logged(t, fills, log)
  {
  }

  lemma OneMoreFill(s: System, t: System, fills: seq<string>, log: seq<Message>, m: Message)
    requires Logged(s, fills, log) && m !in s.accepted && t.accepted == s.accepted + {m}
    ensures Logged(t, fills + [m.cid], log + [m])
  {
    forall k | 0 <= k < |log| ensures log[k] != m {
      assert log[k] in s.accepted;
    }
  }

  lemma SameLedger(f: Floor, s: System)
    requires Outline(f.books, s.manager.inFlight) == s.manager
    ensures forall i :: i in f.books.views <==> i in s.manager.ledger
  {
    assert Entries(f.books.views).Keys == f.books.views.Keys;
  }

  /** What sending does to the network and to the tasks. */
  lemma BegunSystem(limits: Limits, s: System, u: Use, readable: bool)
    requires Numbered(s) && Starts(s.manager, u.intent, u.cid)
    ensures var n := CountOf(s.sends, u.cid);
            var m, t := Message(u.cid, n), Next(limits, s, Place(u, readable));
            && Numbered(t) && m in t.transit && m !in t.accepted
            && t.transit == s.transit + {m} && t.accepted == s.accepted
            && t.manager == s.manager.(inFlight := s.manager.inFlight[u.cid := Task(u.intent, readable, Sending(0), n)])
  {
  }

  /** A message that is lost or accepted leaves the manager alone. */
  lemma DeliveredSystem(limits: Limits, s: System, m: Message, e: Event)
    requires Numbered(s) && m in s.transit && (e == Accept(m) || e == Lose(m))
    ensures var t := Next(limits, s, e);
            && Enabled(s, e) && Numbered(t) && t.manager == s.manager && m !in t.transit && m !in s.accepted
            && (forall x :: x != m ==> (x in t.transit <==> x in s.transit) && (x in t.accepted <==> x in s.accepted))
            && t.accepted == (if e.Accept? then s.accepted + {m} else s.accepted)
  {
  }

  /** A placement asked for, as long as the adapter has not refused it. */
  function Sent(f: Floor, u: Use, sub: Submission): Floor {
    f.(flights := f.flights[u.cid := Flight(u.intent, sub, Asked)])
  }

  lemma SentTracks(
    trust: Trust, limits: Limits, before: seq<Event>, s: System, f: Floor, log: seq<Message>, u: Use, sub: Submission)
    returns (t: System)
    requires Run(trust, limits, before) == Some(s) && Tracks(f, s, log)
    requires u.intent !in f.books.views && u.cid !in f.flights && (trust.requestsAreReadable ==> Reads(sub))
    ensures Run(trust, limits, before + [Place(u, Reads(sub))]) == Some(t) && Tracks(Sent(f, u, sub), t, log)
  {
    var e, g := Place(u, Reads(sub)), Sent(f, u, sub);
    SameLedger(f, s);
    BegunSystem(limits, s, u, Reads(sub));
    RunOneMore(trust, limits, before, e);
    t := Next(limits, s, e);
    assert Outline(f.books, t.manager.inFlight) == t.manager;
    hide Run, Next, Reads, NumericBooks, Numbered;
    assert Follows(g.flights[u.cid], t, u.cid);
    hide Follows, Outline;
    FlightsStay(f, g, s, t, u.cid);
    LogStays(s, t, f.fills, log);
  }

  /** An order that is turned down: its message is lost, and the placement answered with an API error. */
  lemma LostTracks(
    trust: Trust, limits: Limits, before: seq<Event>, s: System, f: Floor, log: seq<Message>, cid: string, code: int)
    returns (e: Event, t: System)
    requires Run(trust, limits, before) == Some(s) && Tracks(f, s, log)
    requires cid in f.flights && f.flights[cid].stage.Asked?
    ensures e.Lose? && Run(trust, limits, before + [e]) == Some(t)
    ensures Tracks(MoveOn(f, cid, Answering(ApiFailure(code))), t, log)
  {
    assert Follows(f.flights[cid], s, cid);
    var m, g := Message(cid, s.manager.inFlight[cid].message), MoveOn(f, cid, Answering(ApiFailure(code)));
    e := Lose(m);
    DeliveredSystem(limits, s, m, e);
    RunOneMore(trust, limits, before, e);
    t := Next(limits, s, e);
    hide Run, Next, Reads, NumericBooks, Numbered, Outline;
    assert Follows(g.flights[cid], t, cid);
    hide Follows;
    FlightsStay(f, g, s, t, cid);
    LogStays(s, t, f.fills, log);
  }

  /** An order that is filled: its message is accepted. */
  lemma FilledTracks(
    trust: Trust, limits: Limits, before: seq<Event>, s: System, f: Floor, log: seq<Message>, cid: string,
    order: Accounting.PaperOrder)
    returns (e: Event, t: System, longer: seq<Message>)
    requires Run(trust, limits, before) == Some(s) && Tracks(f, s, log)
    requires cid in f.flights && f.flights[cid].stage.Asked?
    ensures e.Accept? && Run(trust, limits, before + [e]) == Some(t)
    ensures Tracks(MoveOn(f, cid, Booked(order)).(fills := f.fills + [cid]), t, longer)
  {
    assert Follows(f.flights[cid], s, cid);
    var m, g := Message(cid, s.manager.inFlight[cid].message), MoveOn(f, cid, Booked(order)).(fills := f.fills + [cid]);
    e, longer := Accept(m), log + [m];
    DeliveredSystem(limits, s, m, e);
    RunOneMore(trust, limits, before, e);
    t := Next(limits, s, e);
    hide Run, Next, Reads, NumericBooks, Numbered, Outline;
    assert Follows(g.flights[cid], t, cid);
    hide Follows;
    FlightsStay(f, g, s, t, cid);
    OneMoreFill(s, t, f.fills, log, m);
  }

  /** What the adapter shows of an order can be read, and is about the id it was asked for. */
  lemma ShapeIsReadable(cfg: Config, cid: string, order: Accounting.PaperOrder)
    requires ShowsNumerals(cfg.show)
    ensures var shape := ShapeOf(cfg, cid, order);
            Readable(shape) && NumericShape(shape) && EchoedId(shape, cid) == cid && Numeric(ReportOf(cfg, cid, order))
  {
    hide Numeral;
  }

  lemma ShownBooks(cfg: Config, b: Books, m: Manager, cid: string, order: Accounting.PaperOrder)
    requires ShowsNumerals(cfg.show) && NumericBooks(b) && Outline(b, m.inFlight) == m
    ensures var (books, threw) := Hear(b, ReportOf(cfg, cid, order));
            !threw && NumericBooks(books) && Outline(books, m.inFlight) == m
  {
    var report := ReportOf(cfg, cid, order);
    ShapeIsReadable(cfg, cid, order);
    HeardNumeric(b, Some(report));
    ReportsKeepOutline(b, report, m.inFlight);
    assert Heard(b, Some(report)) == Hear(b, report);
    hide *;
  }

  lemma ShownFollows(fl: Flight, s: System, cid: string, shape: OrderShape)
    requires cid in s.manager.inFlight && fl.stage.Booked? && Follows(fl, s, cid)
    requires Readable(shape) && NumericShape(shape) && EchoedId(shape, cid) == cid
    ensures Follows(fl.(stage := Answering(OrderReply(shape))), s, cid)
  {
    hide Readable, NumericShape, EchoedId, Reads;
  }

  /** The order is filed and reported: nothing that the protocol sees. */
  lemma ShownTracks(cfg: Config, f: Floor, s: System, log: seq<Message>, cid: string, order: Accounting.PaperOrder)
    requires ShowsNumerals(cfg.show) && Tracks(f, s, log)
    requires cid in f.flights && f.flights[cid].stage == Booked(order)
    ensures Tracks(Shown(cfg, f, cid, order), s, log)
  {
    var g, shape := Shown(cfg, f, cid, order), ShapeOf(cfg, cid, order);
    var fl := f.flights[cid].(stage := Answering(OrderReply(shape)));
    ShapeIsReadable(cfg, cid, order);
    ShownBooks(cfg, f.books, s.manager, cid, order);
    ShownParts(cfg, f, cid, order);
    assert Follows(f.flights[cid], s, cid);
    hide *;
    assert Tracks(f, s, log);
    ShownFollows(f.flights[cid], s, cid, shape);
    FlightReplaced(f, g, s, log, cid, fl);
  }

  lemma ShownParts(cfg: Config, f: Floor, cid: string, order: Accounting.PaperOrder)
    requires cid in f.flights && !Hear(f.books, ReportOf(cfg, cid, order)).1
    ensures var g := Shown(cfg, f, cid, order);
            && g.books == Hear(f.books, ReportOf(cfg, cid, order)).0 && g.fills == f.fills
            && g.flights == f.flights[cid := f.flights[cid].(stage := Answering(OrderReply(ShapeOf(cfg, cid, order))))]
  {
    hide Hear, ShapeOf, ReportOf;
  }

  /** New books with the same outline, and a new stage of one flight that follows. */
  lemma FlightReplaced(f: Floor, g: Floor, s: System, log: seq<Message>, cid: string, fl: Flight)
    requires Tracks(f, s, log) && cid in f.flights && cid in s.manager.inFlight && Follows(fl, s, cid)
    requires NumericBooks(g.books) && Outline(g.books, s.manager.inFlight) == s.manager
    requires g.flights == f.flights[cid := fl] && g.fills == f.fills
    ensures Tracks(g, s, log)
  {
    hide NumericBooks, Outline, Numbered, Logged, Follows;
    FlightsStay(f, g, s, s, cid);
  }

  // The reply is taken.

  lemma TakenManager(limits: Limits, b: Books, m: Manager, cid: string, reply: Reply)
    requires cid in m.inFlight && m.inFlight[cid].phase == Sending(0) && Outline(b, m.inFlight) == m
    requires reply.ApiFailure? || (reply.OrderReply? && Readable(reply.shape) && EchoedId(reply.shape, cid) == cid)
    ensures var t := m.inFlight[cid];
            var moved := MoveTo(limits, m, cid, AfterCreate(limits, t.readable, 0, CreateOutcome(reply)), t.message);
            Outline(FiledIf(t.readable, limits.maxLedger, b, FiledFor(t.intent, cid, reply)), moved.inFlight) == moved
  {
    var t := m.inFlight[cid];
    var v, phase := FiledFor(t.intent, cid, reply), AfterCreate(limits, t.readable, 0, CreateOutcome(reply));
    var flight := m.inFlight[cid := t.(phase := phase)];
    FiledForIds(t.intent, cid, reply);
    assert Outline(b, flight) == m.(inFlight := flight);
    FileIsRecord(limits, b, v, flight);
    assert EntryOf(v) == Entry(cid, if reply.OrderReply? then Verdict.ACKED else Verdict.REJECTED);
    RecordKeepsFlight(limits, m.(inFlight := flight), t.intent, EntryOf(v));
    hide Outline, File, Record, FiledFor, EchoedId, EntryOf;
  }

  lemma TakenBooks(limits: Limits, b: Books, intent: string, readable: bool, cid: string, reply: Reply)
    requires NumericBooks(b)
    requires reply.ApiFailure? || (reply.OrderReply? && Readable(reply.shape) && NumericShape(reply.shape))
    ensures AfterPlacement(limits, Once(readable, reply), b, intent, cid) ==
            FiledIf(readable, limits.maxLedger, b, FiledFor(intent, cid, reply))
    ensures NumericBooks(AfterPlacement(limits, Once(readable, reply), b, intent, cid))
  {
    PlacedReply(limits, readable, b, intent, cid, reply);
    FiledForNumeric(intent, cid, reply);
    FileKeepsNumeric(limits.maxLedger, b, FiledFor(intent, cid, reply));
    hide AfterPlacement, File, FiledFor, NumericBooks, Readable, NumericFill;
  }

  lemma TakenSystem(trust: Trust, limits: Limits, s: System, fl: Flight, cid: string)
    requires cid in s.manager.inFlight && fl.stage.Answering? && Follows(fl, s, cid) && Numbered(s)
    ensures var t, reply := s.manager.inFlight[cid], CreateOutcome(fl.stage.reply);
            var e, phase := CreateReturns(cid, reply), AfterCreate(limits, t.readable, 0, reply);
            var u := Next(limits, s, e);
            && Enabled(s, e) && Allowed(trust, s, e) && phase.Settled? && Numbered(u)
            && u.manager == MoveTo(limits, s.manager, cid, phase, t.message)
            && u.transit == s.transit && u.accepted == s.accepted
  {
    hide MoveTo, Readable, EchoedId, NumericShape, Reads;
  }

  lemma TakenTracks(
    trust: Trust, limits: Limits, before: seq<Event>, s: System, f: Floor, log: seq<Message>, cid: string)
    returns (e: Event, t: System)
    requires Run(trust, limits, before) == Some(s) && Tracks(f, s, log)
    requires cid in f.flights && f.flights[cid].stage.Answering?
    ensures e.CreateReturns? && Run(trust, limits, before + [e]) == Some(t)
    ensures Tracks(Taken(limits, f, cid, f.flights[cid].stage.reply), t, log)
  {
    var fl, task := f.flights[cid], s.manager.inFlight[cid];
    var reply := fl.stage.reply;
    var g, phase := Taken(limits, f, cid, reply), AfterCreate(limits, task.readable, 0, CreateOutcome(reply));
    assert Follows(fl, s, cid);
    TakenSystem(trust, limits, s, fl, cid);
    TakenBooks(limits, f.books, fl.intent, task.readable, cid, reply);
    TakenManager(limits, f.books, s.manager, cid, reply);
    e := CreateReturns(cid, CreateOutcome(reply));
    RunOneMore(trust, limits, before, e);
    t := Next(limits, s, e);
    MoveToKeepsTasks(limits, s.manager, cid, phase, task.message);
    hide Run, Next, AfterPlacement, FiledIf, FiledFor, NumericBooks, Numbered, Outline, CreateOutcome, AfterCreate;
    hide Readable, NumericShape, EchoedId, MoveTo;
    assert g.flights[cid] == fl.(stage := Over);
    assert Follows(g.flights[cid], t, cid);
    hide Follows;
    FlightsStay(f, g, s, t, cid);
    LogStays(s, t, f.fills, log);
  }

  lemma MoveToKeepsTasks(limits: Limits, m: Manager, cid: string, phase: Phase, message: nat)
    requires cid in m.inFlight
    ensures MoveTo(limits, m, cid, phase, message).inFlight ==
            m.inFlight[cid := m.inFlight[cid].(phase := phase, message := message)]
  {
  }

  lemma ClosedTracks(
    trust: Trust, limits: Limits, before: seq<Event>, s: System, f: Floor, log: seq<Message>, cid: string)
    returns (t: System)
    requires Run(trust, limits, before) == Some(s) && Tracks(f, s, log)
    requires cid in f.flights && f.flights[cid].stage.Over?
    ensures Run(trust, limits, before + [Finish(cid)]) == Some(t)
    ensures Tracks(f.(flights := f.flights - {cid}), t, log)
  {
    assert Follows(f.flights[cid], s, cid);
    RunOneMore(trust, limits, before, Finish(cid));
    t := Next(limits, s, Finish(cid));
    assert t == s.(manager := Release(s.manager, cid));
    hide Run, Next, NumericBooks;
    LogStays(s, t, f.fills, log);
    hide Logged;
    forall c | c in f.flights && c != cid ensures Follows(f.flights[c], t, c) {
      OtherFollows(f.flights[c], s, t, c);
    }
    hide Follows;
  }

  // ---------------------------------------------------------------------------
  // Every overlap
  // ---------------------------------------------------------------------------

  lemma CallsOneMore(events: seq<Event>, e: Event, calls: Calls)
    requires CallsOnly(events, calls)
    requires (e.Place? ==> e.use in calls.uses) && !e.Cancelled?
    ensures CallsOnly(events + [e], calls)
  {
  }

  lemma DeskIsFree(f: Floor, g: Floor, s: System, log: seq<Message>)
    requires Tracks(f, s, log) && g == f.(desk := g.desk)
    ensures Tracks(g, s, log)
  {
    hide NumericBooks, Outline, Follows, Numbered, Logged;
  }

  lemma BeginTracks(
    trust: Trust, limits: Limits, before: seq<Event>, s: System, f: Floor, log: seq<Message>, u: Use, sub: Submission,
    calls: Calls) returns (events: seq<Event>, t: System)
    requires Run(trust, limits, before) == Some(s) && Tracks(f, s, log) && CallsOnly(before, calls)
    requires u.intent !in f.books.views && u.cid !in f.flights && (trust.requestsAreReadable ==> Reads(sub))
    requires u in calls.uses
    ensures Run(trust, limits, events) == Some(t) && Tracks(Begun(f, u, sub), t, log) && CallsOnly(events, calls)
  {
    var g, refused := Sent(f, u, sub), Refused(u.cid, sub);
    assert Begun(f, u, sub) == if refused.Some? then MoveOn(g, u.cid, Answering(ApiFailure(refused.value))) else g;
    hide Run, Tracks, CallsOnly, Refused, Reads;
    t := SentTracks(trust, limits, before, s, f, log, u, sub);
    events := before + [Place(u, Reads(sub))];
    CallsOneMore(before, Place(u, Reads(sub)), calls);
    if refused.Some? {
      var e;
      var s1 := t;
      e, t := LostTracks(trust, limits, events, s1, g, log, u.cid, refused.value);
      CallsOneMore(events, e, calls);
      events := events + [e];
    }
  }

  lemma ExecutedTracks(
    cfg: Config, trust: Trust, limits: Limits, before: seq<Event>, s: System, f: Floor, log: seq<Message>, cid: string,
    market: Market, calls: Calls) returns (events: seq<Event>, t: System, longer: seq<Message>)
    requires Run(trust, limits, before) == Some(s) && Tracks(f, s, log) && CallsOnly(before, calls)
    requires cid in f.flights && f.flights[cid].stage.Asked? && f.flights[cid].sub.quantity.number.Finite?
    ensures Run(trust, limits, events) == Some(t) && Tracks(Executed(cfg, f, cid, market), t, longer)
    ensures CallsOnly(events, calls)
  {
    hide Run, Tracks, CallsOnly, Accounting.Placed, ParamsOf;
    var e;
    longer := log;
    if market.Unavailable? {
      e, t := LostTracks(trust, limits, before, s, f, log, cid, REJECTED_ORDER);
    } else {
      var params := ParamsOf(f.flights[cid].sub);
      var (account, result) :=
        Accounting.Placed(cfg.dust, cfg.fees, f.desk.account, params, market.price, market.quote);
      var g := f.(desk := f.desk.(account := account));
      DeskIsFree(f, g, s, log);
      if result.Err? {
        e, t := LostTracks(trust, limits, before, s, g, log, cid, REJECTED_ORDER);
      } else {
        e, t, longer := FilledTracks(trust, limits, before, s, g, log, cid, result.value);
      }
    }
    events := before + [e];
    CallsOneMore(before, e, calls);
  }

  lemma AdvanceTracks(
    cfg: Config, trust: Trust, limits: Limits, before: seq<Event>, s: System, f: Floor, log: seq<Message>, p: Piece,
    calls: Calls) returns (events: seq<Event>, t: System, longer: seq<Message>)
    requires ShowsNumerals(cfg.show)
             && (p.Begin? ==> p.use in calls.uses && (trust.requestsAreReadable ==> Reads(p.sub)))
    requires Run(trust, limits, before) == Some(s) && Tracks(f, s, log) && CallsOnly(before, calls)
    ensures Run(trust, limits, events) == Some(t) && Tracks(Advance(cfg, limits, f, p), t, longer)
    ensures CallsOnly(events, calls)
  {
    hide Run, Tracks, CallsOnly, ShowsNumerals, Reads, Begun, Executed, Shown, Taken;
    events, t, longer := before, s, log;
    var e;
    match p {
      case Begin(u, sub) =>
        if u.intent !in f.books.views && u.cid !in f.flights {
          events, t := BeginTracks(trust, limits, before, s, f, log, u, sub, calls);
        }
      case Engine(cid, market) =>
        if cid in f.flights && f.flights[cid].stage.Asked? && f.flights[cid].sub.quantity.number.Finite? {
          events, t, longer := ExecutedTracks(cfg, trust, limits, before, s, f, log, cid, market, calls);
        }
      case Show(cid) =>
        if cid in f.flights && f.flights[cid].stage.Booked? {
          ShownTracks(cfg, f, s, log, cid, f.flights[cid].stage.order);
        }
      case Take(cid) =>
        if cid in f.flights && f.flights[cid].stage.Answering? {
          e, t := TakenTracks(trust, limits, before, s, f, log, cid);
          CallsOneMore(before, e, calls);
          events := before + [e];
        }
      case Close(cid) =>
        if cid in f.flights && f.flights[cid].stage.Over? {
          t := ClosedTracks(trust, limits, before, s, f, log, cid);
          CallsOneMore(before, Finish(cid), calls);
          events := before + [Finish(cid)];
        }
    }
  }

  /** Every placement of some pieces has a request that can be read. */
  predicate AllBegunRead(pieces: seq<Piece>) {
    forall p :: p in pieces && p.Begin? ==> Reads(p.sub)
  }

  /**
   Any interleaving of placements on the paper backend is a run of the placement protocol with the
   adapter's answers true, final and readable, and requests readable as far as that is trusted; the
   engine's fills are its accepted messages.
   */
  lemma {:induction false} OverlapIsAProtocolRun(
    cfg: Config, trust: Trust, limits: Limits, account: Accounting.Account, pieces: seq<Piece>)
    returns (events: seq<Event>, t: System, log: seq<Message>)
    requires ShowsNumerals(cfg.show) && (trust.requestsAreReadable ==> AllBegunRead(pieces))
    ensures Run(trust, limits, events) == Some(t) && CallsOnly(events, Calls(UsesIn(pieces), {}))
    ensures Tracks(Worked(cfg, limits, account, pieces), t, log)
  {
    if pieces == [] {
      events, t, log := [], START, [];
      Beginning(trust, limits);
      assert Entries(NO_BOOKS.views) == map[];
    } else {
      var front, p := pieces[..|pieces| - 1], pieces[|pieces| - 1];
      var calls := Calls(UsesIn(pieces), {});
      assert p in pieces && forall q :: q in front ==> q in pieces;
      assert UsesIn(front) <= UsesIn(pieces) && (p.Begin? ==> p.use in UsesIn(pieces));
      hide Reads;
      var before, s, shorter := OverlapIsAProtocolRun(cfg, trust, limits, account, front);
      CallsOfMore(before, Calls(UsesIn(front), {}), calls);
      hide Run, Tracks, CallsOnly, ShowsNumerals, Advance, UsesIn;
      events, t, log :=
        AdvanceTracks(cfg, trust, limits, before, s, Worked(cfg, limits, account, front), shorter, p, calls);
    }
  }

  /**
   So however placements and their replays overlap, the simulator fills an id at most once, as long
   as ids are not shared by intents, the ledger has room and every request can be read.
   */
  lemma FillsOncePerId(cfg: Config, limits: Limits, account: Accounting.Account, pieces: seq<Piece>)
    requires ShowsNumerals(cfg.show) && AllBegunRead(pieces)
    requires OneOwner(UsesIn(pieces)) && Fits(limits, Calls(UsesIn(pieces), {}))
    ensures Distinct(Worked(cfg, limits, account, pieces).fills)
  {
    var trust := Trust(true, true, true);
    var events, s, log := OverlapIsAProtocolRun(cfg, trust, limits, account, pieces);
    var fills := Worked(cfg, limits, account, pieces).fills;
    EveryRunIsAtMostOnce(trust, limits, Calls(UsesIn(pieces), {}), events);
    assert Logged(s, fills, log);
    hide Run, Tracks, CallsOnly, UsesIn, Worked, ShowsNumerals, OneOwner, Fits;
    forall i, j | 0 <= i < j < |fills| ensures fills[i] != fills[j] {
      assert log[i] in s.accepted && log[j] in s.accepted && log[i] != log[j];
    }
  }

  /** Each of those fills is one order of the account. */
  lemma {:induction false} FillsAreOrders(cfg: Config, limits: Limits, account: Accounting.Account, pieces: seq<Piece>)
    ensures var f := Worked(cfg, limits, account, pieces);
            |f.desk.account.orders| == |account.orders| + |f.fills|
  {
    if pieces != [] {
      var front, p := pieces[..|pieces| - 1], pieces[|pieces| - 1];
      FillsAreOrders(cfg, limits, account, front);
      hide Worked;
      FillAddsOrder(cfg, limits, Worked(cfg, limits, account, front), p);
    }
  }

  lemma FillAddsOrder(cfg: Config, limits: Limits, f: Floor, p: Piece)
    ensures var g := Advance(cfg, limits, f, p);
            |g.desk.account.orders| - |g.fills| == |f.desk.account.orders| - |f.fills|
  {
    if p.Engine? && p.cid in f.flights && f.flights[p.cid].sub.quantity.number.Finite? && p.market.Quoted? {
      OrderAdded(cfg, f.desk.account, ParamsOf(f.flights[p.cid].sub), p.market.price, p.market.quote);
    }
    hide Accounting.Placed, ParamsOf, Hear, AfterPlacement, Refused, ShapeOf, ReportOf;
  }

  lemma OrderAdded(
    cfg: Config, a: Accounting.Account, params: Accounting.OrderParams, price: real, quote: Models.ExecutionQuote)
    ensures var (after, result) := Accounting.Placed(cfg.dust, cfg.fees, a, params, price, quote);
            |after.orders| == |a.orders| + if result.Ok? then 1 else 0
  {
    hide Accounting.Filled, Accounting.Marked, Accounting.RequiredMargin, Accounting.Commission, Accounting.Across;
  }

  /** Without overlap the five pieces are one placement of a session. */
  lemma UninterruptedIsPlace(cfg: Config, limits: Limits, cidOf: string -> string, f: Floor, r: Request, g: Floor)
    requires f.flights == map[]
    requires var u := Use(r.intent, cidOf(r.intent));
             var a := Advance(cfg, limits, f, Begin(u, r.sub));
             var b := Advance(cfg, limits, a, Engine(u.cid, r.market));
             var c := Advance(cfg, limits, b, Show(u.cid));
             var d := Advance(cfg, limits, c, Take(u.cid));
             g == Advance(cfg, limits, d, Close(u.cid))
    ensures g.flights == map[]
    ensures Session(g.books, g.desk) == PaperBackend.Place(cfg, limits, cidOf, Session(f.books, f.desk), r)
  {
    hide Accounting.Placed, ParamsOf, Hear, AfterPlacement, ShapeOf, ReportOf, Reads;
  }
}
