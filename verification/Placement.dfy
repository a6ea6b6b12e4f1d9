/**
 The placement protocol of the execution manager (src/execution/ExecutionManager.ts) against
 an exchange whose replies can be lost.

 JavaScript runs the manager's code in pieces, from one `await` to the next, and other pieces run
 in between. The manager here is the state between pieces; each function on it is one piece. The
 system adds the messages on the wire and the orders the exchange has accepted, and its events
 interleave freely. What the exchange and the transport are trusted with is said by `Allowed`.
 */
module Placement {
  import opened Wrappers

  // ---------------------------------------------------------------------------
  // The manager
  // ---------------------------------------------------------------------------

  /**
   How an awaited createOrder ends: an answer, a BinanceApiError, a NetworkError, or another error,
   raised before the request went out or by an answer that could not be read. The manager cannot
   tell the last two apart.
   */
  datatype CreateReply = Created | ApiError | NoReply | NotSent | Unreadable

  /** How an awaited fetchOrder ends: the order, error -2013, any other failure. */
  datatype FetchReply = Found | NotFound | Unanswered

  /** How the state of an execution was established; FAILED leaves no record. */
  datatype Verdict = ACKED | RECONCILED | REJECTED | UNKNOWN | FAILED

  /** Where a placement is suspended: in a submission, in a poll, or done but still in flight. */
  datatype Phase =
    | Sending(submission: nat)
    | Polling(submission: nat, attempt: nat)
    | Settled(verdict: Verdict)

  /**
   A placement in flight: whether the quantity and price it was asked for can be read as decimals,
   without which no record of it can be built, and the number of the message it last sent.
   */
  datatype Task = Task(intent: string, readable: bool, phase: Phase, message: nat)

  datatype Entry = Entry(cid: string, verdict: Verdict)

  /** `order` lists the ledger's keys, oldest first. */
  datatype Manager = Manager(
    ledger: map<string, Entry>,
    order: seq<string>,
    byClientOrderId: map<string, string>,
    inFlight: map<string, Task>)

  const IDLE := Manager(map[], [], map[], map[])

  /** The configured limits: polls per reconciliation and ledger size. */
  datatype Limits = Limits(maxAttempts: nat, maxLedger: nat)

  /** The end of a placement that is to be recorded; if its request cannot be read, building the record throws. */
  function Ending(readable: bool, verdict: Verdict): Phase {
    Settled(if readable then verdict else FAILED)
  }

  /** After a submission: record, or start polling; with no polls allowed, the outcome stays unknown. */
  function AfterCreate(limits: Limits, readable: bool, submission: nat, reply: CreateReply): Phase {
    match reply
    case Created => Ending(readable, ACKED)
    case ApiError => Ending(readable, REJECTED)
    case NotSent => Settled(FAILED)
    case Unreadable => Settled(FAILED)
    case NoReply => if limits.maxAttempts >= 1 then Polling(submission, 1) else Ending(readable, UNKNOWN)
  }

  /** What a poll tells: the request is read while an order found is recorded, and what that throws is swallowed. */
  function Heeded(readable: bool, reply: FetchReply): FetchReply {
    if reply == Found && !readable then Unanswered else reply
  }

  /** After a poll: recovered, or absent and sent once more, or polled again, or given up. */
  function AfterFetch(limits: Limits, readable: bool, submission: nat, attempt: nat, reply: FetchReply): Phase {
    match Heeded(readable, reply)
    case Found => Settled(RECONCILED)
    case NotFound => if submission == 0 then Sending(1) else Ending(readable, UNKNOWN)
    case Unanswered =>
      if attempt < limits.maxAttempts then Polling(submission, attempt + 1) else Ending(readable, UNKNOWN)
  }

  /** `record`: file the execution, and beyond the limit drop the oldest. */
  function Record(limits: Limits, m: Manager, intent: string, entry: Entry): Manager {
    var ledger := m.ledger[intent := entry];
    var order := if intent in m.ledger then m.order else m.order + [intent];
    var byCid := m.byClientOrderId[entry.cid := intent];
    if |ledger| > limits.maxLedger && order != [] then
      m.(ledger := ledger - {order[0]}, order := order[1..], byClientOrderId := byCid)
    else
      m.(ledger := ledger, order := order, byClientOrderId := byCid)
  }

  /** Whether `placeOrder` starts a submission: not if the intent is known or its id in flight. */
  predicate Starts(m: Manager, intent: string, cid: string) {
    intent !in m.ledger && cid !in m.inFlight
  }

  function Start(m: Manager, intent: string, readable: bool, cid: string, message: nat): Manager {
    m.(inFlight := m.inFlight[cid := Task(intent, readable, Sending(0), message)])
  }

  /** Moves a placement on; a verdict other than FAILED is recorded on the way. */
  function MoveTo(limits: Limits, m: Manager, cid: string, phase: Phase, message: nat): Manager
    requires cid in m.inFlight
  {
    var t := m.inFlight[cid];
    var moved := m.(inFlight := m.inFlight[cid := t.(phase := phase, message := message)]);
    if phase.Settled? && phase.verdict != FAILED then Record(limits, moved, t.intent, Entry(cid, phase.verdict))
    else moved
  }

  /** The `finally` of a settled placement. */
  function Release(m: Manager, cid: string): Manager {
    m.(inFlight := m.inFlight - {cid})
  }

  // ---------------------------------------------------------------------------
  // The system
  // ---------------------------------------------------------------------------

  /** The n-th submission made under a client order id. */
  datatype Message = Message(cid: string, n: nat)

  /**
   `unrecorded` holds the submissions whose placement ended without a record after they had gone
   out, and `cancelled` the intents under which a cancellation has filed its record.
   */
  datatype System = System(
    manager: Manager,
    sends: map<string, nat>,
    proofs: map<string, nat>,
    transit: set<Message>,
    accepted: set<Message>,
    unrecorded: set<Message>,
    cancelled: set<string>)

  /** An intent placed under a client order id, derived or given by the caller. */
  datatype Use = Use(intent: string, cid: string)

  datatype Event =
    | Place(use: Use, readable: bool)
    | Accept(message: Message)
    | Lose(message: Message)
    | CreateReturns(cid: string, created: CreateReply)
    | FetchReturns(cid: string, fetched: FetchReply)
    | Finish(cid: string)
    | Reconcile(intent: string, answer: FetchReply)
    | Cancelled(intent: string, entry: Entry)

  function CountOf(m: map<string, nat>, cid: string): nat {
    if cid in m then m[cid] else 0
  }

  /** Puts one more message under the id on the wire. */
  function Send(s: System, cid: string): System {
    var n := CountOf(s.sends, cid);
    s.(sends := s.sends[cid := n + 1], transit := s.transit + {Message(cid, n)})
  }

  /** Notes that nothing was created by what was sent under the id so far. */
  function Prove(s: System, cid: string): System {
    s.(proofs := s.proofs[cid := CountOf(s.proofs, cid) + 1])
  }

  /** Something sent under the id is an order, or may yet become one. */
  predicate Alive(s: System, cid: string) {
    exists m :: m in s.transit + s.accepted && m.cid == cid
  }

  predicate Exists(s: System, cid: string) {
    exists m :: m in s.accepted && m.cid == cid
  }

  /** The same, leaving out submissions that ended without a record. */
  predicate Live(s: System, cid: string) {
    exists m :: m in s.transit + s.accepted && m !in s.unrecorded && m.cid == cid
  }

  predicate ExistsKept(s: System, cid: string) {
    exists m :: m in s.accepted && m !in s.unrecorded && m.cid == cid
  }

  /** When an event can happen at all. */
  predicate Enabled(s: System, e: Event) {
    match e
    case Place(_, _) => true
    case Accept(m) => m in s.transit
    case Lose(m) => m in s.transit
    case CreateReturns(cid, _) => cid in s.manager.inFlight && s.manager.inFlight[cid].phase.Sending?
    case FetchReturns(cid, _) => cid in s.manager.inFlight && s.manager.inFlight[cid].phase.Polling?
    case Finish(cid) => cid in s.manager.inFlight && s.manager.inFlight[cid].phase.Settled?
    case Reconcile(intent, _) => intent in s.manager.ledger
    case Cancelled(_, entry) => entry.verdict != REJECTED && entry.verdict != FAILED
  }

  /**
   Whether an API error means that nothing was created, whether every answer can be read, and
   whether the quantity and price of every request can be read.
   */
  datatype Trust = Trust(apiErrorsAreFinal: bool, answersAreReadable: bool, requestsAreReadable: bool)

  /**
   What is trusted in any case: an acknowledgement means that submission was accepted; an error
   raised before sending means that it was not; a lookup finds only orders that exist; and -2013
   means that there is none and none is on the way. A lost reply means nothing, and neither does
   an answer that cannot be read.
   */
  predicate Allowed(trust: Trust, s: System, e: Event)
    requires Enabled(s, e)
  {
    match e
    case Place(_, readable) => trust.requestsAreReadable ==> readable
    case CreateReturns(cid, reply) =>
      var m := Message(cid, s.manager.inFlight[cid].message);
      && (reply.Created? ==> m in s.accepted)
      && (reply.NotSent? || (reply.ApiError? && trust.apiErrorsAreFinal) ==> m !in s.accepted && m !in s.transit)
      && (reply.Unreadable? ==> !trust.answersAreReadable)
    case FetchReturns(cid, reply) =>
      && (reply == Found ==> Exists(s, cid))
      && (reply == NotFound ==> !Alive(s, cid))
    case Reconcile(intent, reply) => reply == Found ==> Exists(s, s.manager.ledger[intent].cid)
    case _ => true
  }

  /** The network's side of a move: a placement that ends without a record had sent nothing, or is lost track of. */
  function Ended(s: System, m: Message, phase: Phase, unsent: bool): System {
    if phase != Settled(FAILED) then s
    else if unsent then Prove(s, m.cid)
    else s.(unrecorded := s.unrecorded + {m})
  }

  function Next(limits: Limits, s: System, e: Event): System
    requires Enabled(s, e)
  {
    match e
    case Place(u, readable) =>
      if Starts(s.manager, u.intent, u.cid) then
        Send(s, u.cid).(manager := Start(s.manager, u.intent, readable, u.cid, CountOf(s.sends, u.cid)))
      else s
    case Accept(m) => s.(transit := s.transit - {m}, accepted := s.accepted + {m})
    case Lose(m) => s.(transit := s.transit - {m})
    case CreateReturns(cid, reply) =>
      var t := s.manager.inFlight[cid];
      var phase := AfterCreate(limits, t.readable, t.phase.submission, reply);
      Ended(s, Message(cid, t.message), phase, reply.NotSent?).(manager :=
        MoveTo(limits, s.manager, cid, phase, t.message))
    case FetchReturns(cid, reply) =>
      var t := s.manager.inFlight[cid];
      var phase := AfterFetch(limits, t.readable, t.phase.submission, t.phase.attempt, reply);
      if phase.Sending? then
        Send(Prove(s, cid), cid).(manager := MoveTo(limits, s.manager, cid, phase, CountOf(s.sends, cid)))
      else
        Ended(s, Message(cid, t.message), phase, false).(manager := MoveTo(limits, s.manager, cid, phase, t.message))
    case Finish(cid) => s.(manager := Release(s.manager, cid))
    case Reconcile(intent, reply) =>
      if reply == Found then
        s.(manager := Record(limits, s.manager, intent, Entry(s.manager.ledger[intent].cid, RECONCILED)))
      else s
    case Cancelled(intent, entry) =>
      s.(manager := Record(limits, s.manager, intent, entry), cancelled := s.cancelled + {intent})
  }

  const START := System(IDLE, map[], map[], {}, {}, {}, {})

  /** The state after a sequence of events, if each was possible and trusted when it happened. */
  function Run(trust: Trust, limits: Limits, events: seq<Event>): Option<System> {
    if events == [] then Some(START)
    else
      match Run(trust, limits, events[..|events| - 1])
      case None => None
      case Some(s) =>
        var e := events[|events| - 1];
        if Enabled(s, e) && Allowed(trust, s, e) then Some(Next(limits, s, e)) else None
  }

  /** What callers ask for: placements, and the intents under which cancellations are filed. */
  datatype Calls = Calls(uses: set<Use>, cancels: set<string>)

  /** The placements and cancellations of a run are all among these. */
  predicate CallsOnly(events: seq<Event>, calls: Calls) {
    forall i :: 0 <= i < |events| ==>
      && (events[i].Place? ==> events[i].use in calls.uses)
      && (events[i].Cancelled? ==> events[i].intent in calls.cancels)
  }

  function IntentsOf(uses: set<Use>): set<string> {
    set u | u in uses :: u.intent
  }

  function IdsOf(uses: set<Use>): set<string> {
    set u | u in uses :: u.cid
  }

  /** No client order id is used for two intents. */
  ghost predicate OneOwner(uses: set<Use>) {
    forall u, v :: u in uses && v in uses && u.cid == v.cid ==> u.intent == v.intent
  }

  /** No intent is placed under two client order ids. */
  ghost predicate OneId(uses: set<Use>) {
    forall u, v :: u in uses && v in uses && u.intent == v.intent ==> u.cid == v.cid
  }

  /** The ledger has room for every intent, placed or filed by a cancellation. */
  predicate Fits(limits: Limits, calls: Calls) {
    |IntentsOf(calls.uses) + calls.cancels| <= limits.maxLedger
  }

  // ---------------------------------------------------------------------------
  // The invariant
  // ---------------------------------------------------------------------------

  /** The ledger and its order list the same intents, once each, all of them ours. */
  ghost predicate Filed(m: Manager, calls: Calls) {
    && |m.order| == |m.ledger|
    && (forall i :: i in m.ledger <==> i in m.order)
    && (forall i :: i in m.ledger ==> Use(i, m.ledger[i].cid) in calls.uses || i in calls.cancels)
    && (forall c :: c in m.inFlight ==> Use(m.inFlight[c].intent, c) in calls.uses)
  }

  /** A phase in which the manager still waits for the outcome. */
  predicate Waiting(phase: Phase) {
    !phase.Settled?
  }

  predicate WaitsFor(m: Manager, c: string) {
    c in m.inFlight && Waiting(m.inFlight[c].phase)
  }

  /** The record of an intent is about this id. */
  predicate RecordedUnder(m: Manager, u: Use) {
    u.intent in m.ledger && m.ledger[u.intent].cid == u.cid
  }

  /** And it was filed by a placement, not by a cancellation under the same intent. */
  predicate PlacedUnder(s: System, u: Use) {
    u.intent !in s.cancelled && RecordedUnder(s.manager, u)
  }

  /** Unrecorded submissions aside, only the last message under an id can be alive. */
  ghost predicate OneLive(s: System) {
    && s.transit !! s.accepted
    && (forall m :: m in s.transit + s.accepted + s.unrecorded ==> m.n < CountOf(s.sends, m.cid))
    && (forall m :: m in s.transit + s.accepted && m !in s.unrecorded ==> m.n + 1 == CountOf(s.sends, m.cid))
  }

  function UnrecordedUnder(s: System, c: string): set<Message> {
    set m | m in s.unrecorded && m.cid == c
  }

  /** What is live under an intent's id is known: recorded, or being waited for. */
  ghost predicate Watched(s: System, u: Use) {
    Live(s, u.cid) ==> u.intent in s.manager.ledger || WaitsFor(s.manager, u.cid)
  }

  /** A placement in flight waits for the last message, and has its record once it has settled. */
  ghost predicate Tracked(s: System, u: Use) {
    u.cid in s.manager.inFlight ==>
      var t := s.manager.inFlight[u.cid];
      match t.phase
      case Settled(v) => v != FAILED ==> u.intent in s.manager.ledger
      case _ =>
        && !PlacedUnder(s, u)
        && t.message + 1 == CountOf(s.sends, u.cid) && Message(u.cid, t.message) !in s.unrecorded
  }

  /** The recorded outcome is the truth. */
  ghost predicate TrueOutcome(trust: Trust, s: System, u: Use) {
    PlacedUnder(s, u) ==>
      match s.manager.ledger[u.intent].verdict
      case ACKED => ExistsKept(s, u.cid)
      case RECONCILED => Exists(s, u.cid)
      case REJECTED => trust.apiErrorsAreFinal ==> !Live(s, u.cid)
      case _ => s.manager.ledger[u.intent].verdict == UNKNOWN
  }

  /** Every send but one was preceded by a proof that nothing had been created, or by an end without a record. */
  ghost predicate Justified(s: System, u: Use) {
    var excused := CountOf(s.proofs, u.cid) + |UnrecordedUnder(s, u.cid)|;
    && CountOf(s.sends, u.cid) <= excused + 1
    && (u.intent !in s.manager.ledger && !WaitsFor(s.manager, u.cid) ==> CountOf(s.sends, u.cid) <= excused)
  }

  ghost predicate Good(trust: Trust, s: System, u: Use) {
    && Watched(s, u)
    && Tracked(s, u)
    && TrueOutcome(trust, s, u)
    && Justified(s, u)
  }

  ghost predicate Safe(trust: Trust, s: System, calls: Calls) {
    && Filed(s.manager, calls)
    && s.cancelled <= calls.cancels
    && OneLive(s)
    && forall u :: u in calls.uses ==> Good(trust, s, u)
  }

  /** No two orders under one client order id. */
  ghost predicate AtMostOnce(s: System) {
    forall a, b :: a in s.accepted && b in s.accepted && a.cid == b.cid ==> a == b
  }

  /** Two ids are used for one intent. */
  ghost predicate SameIntent(uses: set<Use>, c: string, d: string) {
    exists u, v :: u in uses && v in uses && u.cid == c && v.cid == d && u.intent == v.intent
  }

  /** No two orders under the ids of one intent. */
  ghost predicate OnePerIntent(s: System, uses: set<Use>) {
    forall a, b :: a in s.accepted && b in s.accepted && SameIntent(uses, a.cid, b.cid) ==> a == b
  }

  lemma OneLiveIsAtMostOnce(s: System)
    requires OneLive(s) && s.unrecorded == {}
    ensures AtMostOnce(s)
  {
  }
}
