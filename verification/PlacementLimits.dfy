/**
 The assumptions under which placement is at most once are exact. If two intents share a client
 order id, or there are more intents than the ledger holds, those of cancellations included, or
 an answer or a request cannot be read, some run of trusted replies gets an id accepted twice. An
 intent placed under two ids gets two orders.
 */
module PlacementLimits {
  import opened Placement
  import opened PlacementSafety
  import opened Sums
  import opened Wrappers

  lemma RunOneMore(trust: Trust, limits: Limits, events: seq<Event>, e: Event)
    requires Run(trust, limits, events).Some?
    requires var s := Run(trust, limits, events).value; Enabled(s, e) && Allowed(trust, s, e)
    ensures Run(trust, limits, events + [e]) == Some(Next(limits, Run(trust, limits, events).value, e))
  {
    assert (events + [e])[..|events|] == events;
    hide Next, Enabled, Allowed;
  }

  /** Nothing in flight or on the wire, and numbers count up. */
  ghost predicate Quiet(s: System) {
    && s.manager.inFlight == map[]
    && s.transit == {}
    && forall m :: m in s.accepted ==> m.n < CountOf(s.sends, m.cid)
  }

  // ---------------------------------------------------------------------------
  // One placement on its own
  // ---------------------------------------------------------------------------

  /** A request, and an answer to it: accepted and acknowledged, accepted and not readable, or turned down. */
  predicate Answerable(trust: Trust, readable: bool, reply: CreateReply) {
    && (trust.requestsAreReadable ==> readable)
    && (reply.Created? || reply.ApiError? || (reply.Unreadable? && !trust.answersAreReadable))
  }

  /** A placement on its own: sent, accepted or not, answered, released. */
  function Episode(u: Use, readable: bool, m: Message, reply: CreateReply): seq<Event> {
    [Place(u, readable), Delivery(m, reply), CreateReturns(m.cid, reply), Finish(m.cid)]
  }

  function Delivery(m: Message, reply: CreateReply): Event {
    if reply.ApiError? then Lose(m) else Accept(m)
  }

  /** The manager after a placement on its own. */
  function Recorded(limits: Limits, m: Manager, u: Use, readable: bool, reply: CreateReply): Manager {
    if !readable || reply.Unreadable? then m
    else if reply.Created? then Record(limits, m, u.intent, Entry(u.cid, ACKED))
    else if reply.ApiError? then Record(limits, m, u.intent, Entry(u.cid, REJECTED))
    else m
  }

  lemma Sent(limits: Limits, s: System, u: Use, readable: bool, m: Message)
    requires Quiet(s) && u.intent !in s.manager.ledger && m == Message(u.cid, CountOf(s.sends, u.cid))
    ensures var t := Next(limits, s, Place(u, readable));
            && t == s.(manager := Start(s.manager, u.intent, readable, m.cid, m.n),
                       sends := s.sends[m.cid := m.n + 1], transit := {m})
            && m !in s.accepted
  {
    assert Starts(s.manager, u.intent, m.cid);
    assert {} + {m} == {m};
  }

  lemma Delivered(trust: Trust, limits: Limits, s: System, m: Message, reply: CreateReply)
    requires s.transit == {m}
    ensures var e := Delivery(m, reply);
            && Enabled(s, e) && Allowed(trust, s, e)
            && Next(limits, s, e) ==
               s.(transit := {}, accepted := if reply.ApiError? then s.accepted else s.accepted + {m})
  {
    assert {m} - {m} == {};
  }

  lemma Answered(trust: Trust, limits: Limits, s: System, u: Use, readable: bool, m: Message, reply: CreateReply)
    requires Answerable(trust, readable, reply) && u.cid == m.cid
    requires s.manager.inFlight == map[m.cid := Task(u.intent, readable, Sending(0), m.n)]
    requires s.transit == {} && (m in s.accepted <==> !reply.ApiError?)
    ensures var e, phase := CreateReturns(m.cid, reply), AfterCreate(limits, readable, 0, reply);
            && Enabled(s, e) && Allowed(trust, s, e)
            && Next(limits, s, e) ==
               Ended(s, m, phase, false).(manager := MoveTo(limits, s.manager, m.cid, phase, m.n))
  {
    hide MoveTo;
  }

  lemma Closed(trust: Trust, limits: Limits, before: Manager, u: Use, readable: bool, n: nat, reply: CreateReply)
    requires before.inFlight == map[] && Answerable(trust, readable, reply)
    ensures var started := Start(before, u.intent, readable, u.cid, n);
            var moved := MoveTo(limits, started, u.cid, AfterCreate(limits, readable, 0, reply), n);
            && u.cid in moved.inFlight && moved.inFlight[u.cid].phase.Settled?
            && Release(moved, u.cid) == Recorded(limits, before, u, readable, reply)
            && Recorded(limits, before, u, readable, reply).inFlight == map[]
  {
    var phase := AfterCreate(limits, readable, 0, reply);
    var started, task := Start(before, u.intent, readable, u.cid, n), Task(u.intent, readable, phase, n);
    assert phase.Settled? && (phase.verdict == FAILED <==> reply.Unreadable? || !readable);
    assert started.inFlight[u.cid := task] == map[u.cid := task];
    RecordReleased(limits, before, u, task);
  }

  lemma RecordReleased(limits: Limits, before: Manager, u: Use, task: Task)
    requires before.inFlight == map[]
    ensures var m := before.(inFlight := map[u.cid := task]);
            && Release(m, u.cid) == before
            && forall e :: Record(limits, m, u.intent, e).inFlight == map[u.cid := task]
                           && Release(Record(limits, m, u.intent, e), u.cid) == Record(limits, before, u.intent, e)
  {
    assert map[u.cid := task] - {u.cid} == map[];
  }

  lemma Finished(trust: Trust, limits: Limits, s: System, c: string)
    requires c in s.manager.inFlight && s.manager.inFlight[c].phase.Settled?
    ensures Enabled(s, Finish(c)) && Allowed(trust, s, Finish(c))
    ensures Next(limits, s, Finish(c)) == s.(manager := Release(s.manager, c))
  {
  }

  lemma FourMore(
    trust: Trust, limits: Limits, events: seq<Event>, u: Use, readable: bool, m: Message, reply: CreateReply,
    s: System, s1: System, s2: System, s3: System, t: System)
    requires Run(trust, limits, events) == Some(s)
    requires var e := Place(u, readable); Allowed(trust, s, e) && s1 == Next(limits, s, e)
    requires var e := Delivery(m, reply); Enabled(s1, e) && Allowed(trust, s1, e) && s2 == Next(limits, s1, e)
    requires var e := CreateReturns(m.cid, reply); Enabled(s2, e) && Allowed(trust, s2, e) && s3 == Next(limits, s2, e)
    requires var e := Finish(m.cid); Enabled(s3, e) && Allowed(trust, s3, e) && t == Next(limits, s3, e)
    ensures Run(trust, limits, events + Episode(u, readable, m, reply)) == Some(t)
  {
    hide Next, Run, Delivery;
    var e1 := events + [Place(u, readable)];
    RunOneMore(trust, limits, events, Place(u, readable));
    var e2 := e1 + [Delivery(m, reply)];
    RunOneMore(trust, limits, e1, Delivery(m, reply));
    var e3 := e2 + [CreateReturns(m.cid, reply)];
    RunOneMore(trust, limits, e2, CreateReturns(m.cid, reply));
    RunOneMore(trust, limits, e3, Finish(m.cid));
    assert e3 + [Finish(m.cid)] == events + Episode(u, readable, m, reply);
  }

  lemma QuietAfter(s: System, t: System, m: Message)
    requires Quiet(s) && m.n == CountOf(s.sends, m.cid)
    requires t.sends == s.sends[m.cid := m.n + 1] && t.accepted <= s.accepted + {m} && t.transit == {}
    requires t.manager.inFlight == map[]
    ensures Quiet(t)
  {
  }

  /** From a quiet state a new intent can be placed on its own, with any of those answers. */
  lemma PlaceOne(
    trust: Trust, limits: Limits, events: seq<Event>, s: System, u: Use, readable: bool, reply: CreateReply)
    returns (longer: seq<Event>, t: System)
    requires Run(trust, limits, events) == Some(s) && Quiet(s) && u.intent !in s.manager.ledger
    requires Answerable(trust, readable, reply)
    ensures var m := Message(u.cid, CountOf(s.sends, u.cid));
            && longer == events + Episode(u, readable, m, reply)
            && Run(trust, limits, longer) == Some(t)
            && Quiet(t) && m !in s.accepted
            && t.accepted == (if reply.ApiError? then s.accepted else s.accepted + {m})
            && t.manager == Recorded(limits, s.manager, u, readable, reply)
  {
    var c, m := u.cid, Message(u.cid, CountOf(s.sends, u.cid));
    var phase := AfterCreate(limits, readable, 0, reply);
    var s1 := Next(limits, s, Place(u, readable));
    Sent(limits, s, u, readable, m);
    var s2 := s1.(transit := {}, accepted := if reply.ApiError? then s.accepted else s.accepted + {m});
    Delivered(trust, limits, s1, m, reply);
    assert s2.manager.inFlight == map[c := Task(u.intent, readable, Sending(0), m.n)];
    var s3 := Next(limits, s2, CreateReturns(c, reply));
    Answered(trust, limits, s2, u, readable, m, reply);
    Closed(trust, limits, s.manager, u, readable, m.n, reply);
    assert Allowed(trust, s, Place(u, readable));
    hide Run, MoveTo, Recorded, Allowed, Enabled, AfterCreate, Answerable, Delivery;
    assert s3.manager == MoveTo(limits, s1.manager, c, phase, m.n);
    Finished(trust, limits, s3, c);
    var t1 := Next(limits, s3, Finish(c));
    assert t1.accepted == s2.accepted && t1.transit == {} && t1.sends == s1.sends;
    QuietAfter(s, t1, m);
    t := t1;
    hide *;
    FourMore(trust, limits, events, u, readable, m, reply, s, s1, s2, s3, t);
    longer := events + Episode(u, readable, m, reply);
  }

  lemma EpisodeCalls(events: seq<Event>, calls: Calls, u: Use, readable: bool, m: Message, reply: CreateReply)
    requires CallsOnly(events, calls) && u in calls.uses
    ensures var longer := events + Episode(u, readable, m, reply);
            && CallsOnly(longer, calls)
            && Place(u, readable) in longer && CreateReturns(m.cid, reply) in longer
            && forall e :: e in events ==> e in longer
  {
    var longer := events + Episode(u, readable, m, reply);
    assert longer[|events|] == Place(u, readable) && longer[|events| + 2] == CreateReturns(m.cid, reply);
  }

  /** A cancellation under a fresh intent, its order already gone. */
  function Cancellation(i: string): Event {
    Cancelled(i, Entry("", RECONCILED))
  }

  /** A cancellation can file its record at any time. */
  lemma CancelOne(trust: Trust, limits: Limits, events: seq<Event>, s: System, i: string) returns (t: System)
    requires Run(trust, limits, events) == Some(s) && Quiet(s)
    ensures Run(trust, limits, events + [Cancellation(i)]) == Some(t)
    ensures Quiet(t) && t.accepted == s.accepted && t.manager == Record(limits, s.manager, i, Entry("", RECONCILED))
  {
    RunOneMore(trust, limits, events, Cancellation(i));
    t := Next(limits, s, Cancellation(i));
    hide Run;
  }

  lemma Beginning(trust: Trust, limits: Limits)
    ensures Run(trust, limits, []) == Some(START) && Quiet(START) && Files(START.manager, [])
  {
  }

  // ---------------------------------------------------------------------------
  // Five ways to fail
  // ---------------------------------------------------------------------------

  lemma OneFiled(limits: Limits, u: Use, readable: bool, reply: CreateReply)
    ensures forall i :: i in Recorded(limits, IDLE, u, readable, reply).ledger ==> i == u.intent
    ensures !readable || reply.Unreadable? ==> Recorded(limits, IDLE, u, readable, reply).ledger == map[]
  {
  }

  /** Two placements under one id, the second of them submitted: both are accepted. */
  lemma TwiceUnderOneId(trust: Trust, limits: Limits, u: Use, v: Use, readable: bool, reply: CreateReply)
    returns (events: seq<Event>)
    requires u.cid == v.cid && Answerable(trust, readable, reply) && !reply.ApiError?
    requires u.intent != v.intent || !readable || reply.Unreadable?
    ensures CallsOnly(events, Calls({u, v}, {}))
    ensures Place(u, readable) in events && CreateReturns(u.cid, reply) in events
    ensures Run(trust, limits, events).Some? && !AtMostOnce(Run(trust, limits, events).value)
  {
    Beginning(trust, limits);
    OneFiled(limits, u, readable, reply);
    var m := Message(u.cid, CountOf(START.sends, u.cid));
    assert Answerable(trust, true, Created);
    var calls := Calls({u, v}, {});
    assert CallsOnly([], calls) && u in calls.uses && v in calls.uses;
    hide Run, Quiet, Recorded, CallsOnly, Episode;
    EpisodeCalls([], calls, u, readable, m, reply);
    var first, s := PlaceOne(trust, limits, [], START, u, readable, reply);
    var n := Message(v.cid, CountOf(s.sends, v.cid));
    EpisodeCalls(first, calls, v, true, n, Created);
    var t;
    events, t := PlaceOne(trust, limits, first, s, v, true, Created);
    assert m in t.accepted && n in t.accepted && m.cid == n.cid && m != n;
  }

  /** Two intents with one id: both are submitted, and both are accepted. */
  lemma CollisionDoubles(trust: Trust, limits: Limits, u: Use, v: Use) returns (events: seq<Event>)
    requires u.intent != v.intent && u.cid == v.cid
    ensures CallsOnly(events, Calls({u, v}, {}))
    ensures Run(trust, limits, events).Some? && !AtMostOnce(Run(trust, limits, events).value)
  {
    events := TwiceUnderOneId(trust, limits, u, v, true, Created);
  }

  /**
   An order is accepted, but its answer cannot be read: the error escapes without a record, and
   placing the intent again creates a second order under its id.
   */
  lemma UnrecordedErrorDoubles(trust: Trust, limits: Limits, u: Use) returns (events: seq<Event>)
    requires !trust.answersAreReadable
    ensures CallsOnly(events, Calls({u}, {})) && CreateReturns(u.cid, Unreadable) in events
    ensures Run(trust, limits, events).Some? && !AtMostOnce(Run(trust, limits, events).value)
  {
    events := TwiceUnderOneId(trust, limits, u, u, true, Unreadable);
  }

  /**
   An order is accepted and acknowledged, but the quantity or price asked for cannot be read as a
   decimal: building the record throws, and placing the intent again creates a second order.
   */
  lemma UnreadableRequestDoubles(trust: Trust, limits: Limits, u: Use) returns (events: seq<Event>)
    requires !trust.requestsAreReadable
    ensures CallsOnly(events, Calls({u}, {})) && Place(u, false) in events && CreateReturns(u.cid, Created) in events
    ensures Run(trust, limits, events).Some? && !AtMostOnce(Run(trust, limits, events).value)
  {
    events := TwiceUnderOneId(trust, limits, u, u, false, Created);
  }

  /** One intent placed under two ids before either is answered: both are accepted. */
  lemma TwoIdsDouble(trust: Trust, limits: Limits, u: Use, v: Use) returns (events: seq<Event>)
    requires u.intent == v.intent && u.cid != v.cid
    ensures CallsOnly(events, Calls({u, v}, {}))
    ensures Run(trust, limits, events).Some? && !OnePerIntent(Run(trust, limits, events).value, {u, v})
  {
    var m, n := Message(u.cid, 0), Message(v.cid, 0);
    events := [Place(u, true), Place(v, true), Accept(m), Accept(n)];
    var s1 := Next(limits, START, events[0]);
    BothSent(limits, u, v, s1, m, n);
    var s2 := Next(limits, s1, events[1]);
    AcceptedOne(limits, s2, m, n);
    var s3 := Next(limits, s2, events[2]);
    AcceptedLast(limits, s3, m, n);
    hide Next, Run;
    RunFour(trust, limits, events, s1, s2, s3);
    TwoOrdersOfTwoIds(Next(limits, s3, events[3]), u, v, m, n);
  }

  lemma RunFour(trust: Trust, limits: Limits, events: seq<Event>, s1: System, s2: System, s3: System)
    requires |events| == 4
    requires Enabled(START, events[0]) && Allowed(trust, START, events[0]) && s1 == Next(limits, START, events[0])
    requires Enabled(s1, events[1]) && Allowed(trust, s1, events[1]) && s2 == Next(limits, s1, events[1])
    requires Enabled(s2, events[2]) && Allowed(trust, s2, events[2]) && s3 == Next(limits, s2, events[2])
    requires Enabled(s3, events[3]) && Allowed(trust, s3, events[3])
    ensures Run(trust, limits, events) == Some(Next(limits, s3, events[3]))
  {
    hide Next, Enabled, Allowed;
    assert Run(trust, limits, []) == Some(START);
    assert events[..1][..0] == [] && events[..2][..1] == events[..1] && events[..3][..2] == events[..2];
    assert Run(trust, limits, events[..1]) == Some(s1);
    assert Run(trust, limits, events[..2]) == Some(s2);
    assert Run(trust, limits, events[..3]) == Some(s3);
  }

  lemma TwoOrdersOfTwoIds(s: System, u: Use, v: Use, m: Message, n: Message)
    requires u.intent == v.intent && u.cid != v.cid && m.cid == u.cid && n.cid == v.cid
    requires m in s.accepted && n in s.accepted
    ensures !OnePerIntent(s, {u, v})
  {
    assert u in {u, v} && v in {u, v};
    assert SameIntent({u, v}, m.cid, n.cid);
  }

  lemma BothSent(limits: Limits, u: Use, v: Use, s1: System, m: Message, n: Message)
    requires u.intent == v.intent && u.cid != v.cid && m == Message(u.cid, 0) && n == Message(v.cid, 0)
    requires s1 == Next(limits, START, Place(u, true))
    ensures m in Next(limits, s1, Place(v, true)).transit && n in Next(limits, s1, Place(v, true)).transit
  {
    assert Starts(START.manager, u.intent, u.cid) && Starts(s1.manager, v.intent, v.cid);
  }

  lemma AcceptedOne(limits: Limits, s: System, m: Message, n: Message)
    requires m in s.transit && n in s.transit && m != n
    ensures m in Next(limits, s, Accept(m)).accepted && n in Next(limits, s, Accept(m)).transit
  {
  }

  lemma AcceptedLast(limits: Limits, s: System, m: Message, n: Message)
    requires m in s.accepted && n in s.transit
    ensures m in Next(limits, s, Accept(n)).accepted && n in Next(limits, s, Accept(n)).accepted
  {
  }

  // ---------------------------------------------------------------------------
  // Eviction
  // ---------------------------------------------------------------------------

  /** The last so many of a sequence. */
  function Tail(q: seq<string>, n: nat): seq<string> {
    if |q| <= n then q else q[|q| - n..]
  }

  /** A ledger that files exactly these intents, in this order. */
  ghost predicate Files(m: Manager, order: seq<string>) {
    && m.order == order && |m.ledger| == |order|
    && forall i :: i in m.ledger <==> i in order
  }

  /** Recording one more intent keeps the newest, up to the limit. */
  lemma RecordNewest(limits: Limits, m: Manager, q: seq<string>, i: string, entry: Entry)
    requires Distinct(q + [i]) && Files(m, Tail(q, limits.maxLedger))
    ensures Files(Record(limits, m, i, entry), Tail(q + [i], limits.maxLedger))
  {
    var n := limits.maxLedger;
    var order, ledger := Tail(q, n) + [i], m.ledger[i := entry];
    NotYetFiled(q, i, n);
    FilesMore(m, Tail(q, n), i, entry);
    TailOfMore(q, i, n);
    assert i !in m.ledger && m.order + [i] == order;
    if |q| >= n {
      Oldest(q, i, n);
    }
    hide Tail, Distinct, Files, Record;
    RecordedFiles(limits, m, i, entry, order, ledger);
  }

  lemma RecordedFiles(
    limits: Limits, m: Manager, i: string, entry: Entry, order: seq<string>, ledger: map<string, Entry>)
    requires i !in m.ledger && order == m.order + [i] && ledger == m.ledger[i := entry]
    requires |ledger| == |order| && forall x :: x in ledger <==> x in order
    requires |order| > limits.maxLedger ==> order[0] !in order[1..]
    ensures Files(Record(limits, m, i, entry), if |order| > limits.maxLedger then order[1..] else order)
  {
    if |order| > limits.maxLedger {
      DropOldest(ledger, order);
    }
  }

  lemma FilesMore(m: Manager, order: seq<string>, i: string, entry: Entry)
    requires Files(m, order) && i !in order
    ensures var ledger := m.ledger[i := entry];
            |ledger| == |order| + 1 && forall x :: x in ledger <==> x in order + [i]
  {
    assert m.ledger[i := entry].Keys == m.ledger.Keys + {i};
    assert |m.ledger[i := entry]| == |m.ledger[i := entry].Keys| && |m.ledger| == |m.ledger.Keys|;
  }

  lemma TailOfMore(q: seq<string>, i: string, n: nat)
    ensures |Tail(q, n)| == if |q| <= n then |q| else n
    ensures Tail(q + [i], n) == if |q| < n then Tail(q, n) + [i] else (Tail(q, n) + [i])[1..]
  {
  }

  lemma NotYetFiled(q: seq<string>, i: string, n: nat)
    requires Distinct(q + [i])
    ensures i !in Tail(q, n)
  {
    forall k | 0 <= k < |q| ensures q[k] != i {
      assert (q + [i])[k] == q[k] && (q + [i])[|q|] == i;
    }
  }

  lemma DropOldest(ledger: map<string, Entry>, order: seq<string>)
    requires order != [] && |ledger| == |order| && order[0] !in order[1..]
    requires forall x :: x in ledger <==> x in order
    ensures |ledger - {order[0]}| == |order| - 1
    ensures forall x :: x in ledger - {order[0]} <==> x in order[1..]
  {
    assert (ledger - {order[0]}).Keys == ledger.Keys - {order[0]};
    assert order[0] in ledger.Keys;
    assert order == [order[0]] + order[1..];
  }

  /** The entry that goes is not among those that stay. */
  lemma Oldest(q: seq<string>, i: string, n: nat)
    requires Distinct(q + [i]) && |q| >= n
    ensures var order := Tail(q, n) + [i]; order[0] !in order[1..]
  {
    var longer := q + [i];
    var order := Tail(q, n) + [i];
    assert forall k :: 0 <= k < |order| ==> order[k] == longer[|q| - n + k];
  }

  /** One way to file a record: a placement on its own, or a cancellation. */
  datatype Filing = Placing(use: Use) | Cancelling(cancelled: string)

  function IntentOf(f: Filing): string {
    if f.Placing? then f.use.intent else f.cancelled
  }

  /** Calls of which this can be one. */
  predicate CalledFor(f: Filing, calls: Calls) {
    if f.Placing? then f.use in calls.uses else f.cancelled in calls.cancels
  }

  /** The intents of some filings, in order. */
  function IntentList(q: seq<Filing>): seq<string> {
    seq(|q|, i requires 0 <= i < |q| => IntentOf(q[i]))
  }

  lemma IntentListOneMore(front: seq<Filing>, f: Filing)
    ensures IntentList(front + [f]) == IntentList(front) + [IntentOf(f)]
  {
  }

  lemma DistinctFront(q: seq<string>, i: string)
    requires Distinct(q + [i])
    ensures Distinct(q)
  {
    assert forall k :: 0 <= k < |q| ==> (q + [i])[k] == q[k];
  }

  /** Filing distinct intents one after the other leaves the newest of them on file. */
  lemma {:induction false} FileMany(trust: Trust, limits: Limits, calls: Calls, q: seq<Filing>)
    returns (events: seq<Event>, t: System)
    requires Distinct(IntentList(q)) && forall f :: f in q ==> CalledFor(f, calls)
    ensures CallsOnly(events, calls)
    ensures Run(trust, limits, events) == Some(t) && Quiet(t)
    ensures Files(t.manager, Tail(IntentList(q), limits.maxLedger))
    ensures forall f :: f in q && f.Placing? ==> Exists(t, f.use.cid)
  {
    hide Run, Quiet, Exists, Distinct, Next;
    if q == [] {
      Beginning(trust, limits);
      events, t := [], START;
    } else {
      var front, last := q[..|q| - 1], q[|q| - 1];
      assert q == front + [last];
      IntentListOneMore(front, last);
      DistinctFront(IntentList(front), IntentOf(last));
      var before, s := FileMany(trust, limits, calls, front);
      NotYetFiled(IntentList(front), IntentOf(last), limits.maxLedger);
      hide IntentList, CalledFor;
      events, t := FileOne(trust, limits, calls, before, s, IntentList(front), last);
      assert CalledFor(last, calls);
    }
  }

  /** One more filing. */
  lemma FileOne(
    trust: Trust, limits: Limits, calls: Calls, before: seq<Event>, s: System, q: seq<string>, f: Filing)
    returns (events: seq<Event>, t: System)
    requires Run(trust, limits, before) == Some(s) && Quiet(s) && CallsOnly(before, calls) && CalledFor(f, calls)
    requires Distinct(q + [IntentOf(f)]) && Files(s.manager, Tail(q, limits.maxLedger))
    requires IntentOf(f) !in s.manager.ledger
    ensures CallsOnly(events, calls) && Run(trust, limits, events) == Some(t) && Quiet(t)
    ensures Files(t.manager, Tail(q + [IntentOf(f)], limits.maxLedger))
    ensures (forall d :: Exists(s, d) ==> Exists(t, d)) && (f.Placing? ==> Exists(t, f.use.cid))
  {
    hide Run, Quiet, Exists, Distinct, Tail, Files, Record, Episode;
    match f {
      case Placing(u) =>
        var m := Message(u.cid, CountOf(s.sends, u.cid));
        RecordNewest(limits, s.manager, q, u.intent, Entry(u.cid, ACKED));
        assert Answerable(trust, true, Created);
        events, t := PlaceOne(trust, limits, before, s, u, true, Created);
        EpisodeCalls(before, calls, u, true, m, Created);
        MoreExist(s, t, u.cid, m);
      case Cancelling(i) =>
        RecordNewest(limits, s.manager, q, i, Entry("", RECONCILED));
        t := CancelOne(trust, limits, before, s, i);
        events := before + [Cancellation(i)];
        SameOrders(s, t);
    }
  }

  lemma SameOrders(s: System, t: System)
    requires t.accepted == s.accepted
    ensures forall d :: Exists(s, d) ==> Exists(t, d)
  {
  }

  lemma MoreExist(s: System, t: System, c: string, m: Message)
    requires t.accepted == s.accepted + {m} && m.cid == c
    ensures Exists(t, c) && forall d :: Exists(s, d) ==> Exists(t, d)
  {
    assert m in t.accepted;
    forall d | Exists(s, d) ensures Exists(t, d) {
      var x :| x in s.accepted && x.cid == d;
      assert x in t.accepted;
    }
  }

  /** One intent more than the ledger holds: the first is forgotten, and its replay sent again. */
  lemma EvictionDoubles(trust: Trust, limits: Limits, calls: Calls, q: seq<Filing>) returns (events: seq<Event>)
    requires Distinct(IntentList(q)) && |q| == limits.maxLedger + 1 && q[0].Placing?
    requires forall f :: f in q ==> CalledFor(f, calls)
    ensures CallsOnly(events, calls)
    ensures Run(trust, limits, events).Some? && !AtMostOnce(Run(trust, limits, events).value)
  {
    var placed, s := FileMany(trust, limits, calls, q);
    var list, u := IntentList(q), q[0].use;
    assert Tail(list, limits.maxLedger) == list[1..];
    assert list[0] == u.intent && list[0] !in list[1..];
    assert q[0] in q && Exists(s, u.cid) && CalledFor(q[0], calls);
    var m :| m in s.accepted && m.cid == u.cid;
    var n := Message(u.cid, CountOf(s.sends, u.cid));
    assert Answerable(trust, true, Created) && u.intent !in s.manager.ledger;
    hide Run, Quiet, Recorded, Files, Tail, IntentList, Distinct, Episode, CallsOnly;
    EpisodeCalls(placed, calls, u, true, n, Created);
    var t;
    events, t := PlaceOne(trust, limits, placed, s, u, true, Created);
    assert m in t.accepted && n in t.accepted && m != n;
  }

  // ---------------------------------------------------------------------------
  // Exactly
  // ---------------------------------------------------------------------------

  lemma DistinctCons(f: Filing, rest: seq<Filing>)
    requires Distinct(IntentList(rest)) && forall k :: 0 <= k < |rest| ==> IntentOf(rest[k]) != IntentOf(f)
    ensures Distinct(IntentList([f] + rest))
  {
    assert IntentList([f] + rest) == [IntentOf(f)] + IntentList(rest);
  }

  /** So many filings of distinct intents out of these, as a sequence. */
  lemma {:induction false} Pick(calls: Calls, intents: set<string>, n: nat) returns (q: seq<Filing>)
    requires n <= |intents| && intents <= Known(calls)
    ensures |q| == n && Distinct(IntentList(q))
    ensures forall f :: f in q ==> CalledFor(f, calls) && IntentOf(f) in intents
  {
    if n == 0 {
      q := [];
    } else {
      var i :| i in intents;
      var f := FilingOf(calls, i);
      assert |intents - {i}| == |intents| - 1;
      hide Known;
      var rest := Pick(calls, intents - {i}, n - 1);
      q := [f] + rest;
      assert forall k :: 0 <= k < |rest| ==> rest[k] in rest && IntentOf(rest[k]) != i;
      hide IntentOf, CalledFor;
      DistinctCons(f, rest);
    }
  }

  lemma FilingOf(calls: Calls, i: string) returns (f: Filing)
    requires i in Known(calls)
    ensures IntentOf(f) == i && CalledFor(f, calls)
  {
    if i in calls.cancels {
      f := Cancelling(i);
    } else {
      var u :| u in calls.uses && u.intent == i;
      f := Placing(u);
    }
  }

  /**
   What the placements must be like, together with the cancellations, and whether everything must
   be readable, for at most one order an id.
   */
  ghost predicate Guarded(trust: Trust, limits: Limits, calls: Calls) {
    || calls.uses == {}
    || (OneOwner(calls.uses) && Fits(limits, calls) && trust.answersAreReadable && trust.requestsAreReadable)
  }

  lemma CallsOfMore(events: seq<Event>, some: Calls, calls: Calls)
    requires CallsOnly(events, some) && some.uses <= calls.uses && some.cancels <= calls.cancels
    ensures CallsOnly(events, calls)
  {
  }

  /** More intents than the ledger holds, one of them placed. */
  lemma TooManyDouble(trust: Trust, limits: Limits, calls: Calls, u: Use) returns (events: seq<Event>)
    requires u in calls.uses && !Fits(limits, calls)
    ensures CallsOnly(events, calls)
    ensures Run(trust, limits, events).Some? && !AtMostOnce(Run(trust, limits, events).value)
  {
    assert u.intent in Known(calls);
    var others := Known(calls) - {u.intent};
    assert |others| == |Known(calls)| - 1;
    hide Run, AtMostOnce;
    var rest := Pick(calls, others, limits.maxLedger);
    assert forall k :: 0 <= k < |rest| ==> rest[k] in rest && IntentOf(rest[k]) != u.intent;
    DistinctCons(Placing(u), rest);
    hide IntentList, IntentOf;
    events := EvictionDoubles(trust, limits, calls, [Placing(u)] + rest);
  }

  lemma UnguardedDoubles(trust: Trust, limits: Limits, calls: Calls) returns (events: seq<Event>)
    requires !Guarded(trust, limits, calls)
    ensures CallsOnly(events, calls)
    ensures Run(trust, limits, events).Some? && !AtMostOnce(Run(trust, limits, events).value)
  {
    hide Run, AtMostOnce, CallsOnly, Fits;
    var u :| u in calls.uses;
    if !OneOwner(calls.uses) {
      var v, w :| v in calls.uses && w in calls.uses && v.cid == w.cid && v.intent != w.intent;
      events := CollisionDoubles(trust, limits, v, w);
      CallsOfMore(events, Calls({v, w}, {}), calls);
    } else if !Fits(limits, calls) {
      events := TooManyDouble(trust, limits, calls, u);
    } else {
      if !trust.answersAreReadable {
        events := UnrecordedErrorDoubles(trust, limits, u);
      } else {
        events := UnreadableRequestDoubles(trust, limits, u);
      }
      CallsOfMore(events, Calls({u}, {}), calls);
    }
  }

  /**
   At most one order under an id in every run of these placements and cancellations, exactly when
   nothing is placed, or no id is shared by two intents, the ledger holds all the intents, and all
   answers and requests can be read. Whether API errors are final makes no difference.
   */
  lemma AtMostOnceIff(trust: Trust, limits: Limits, calls: Calls)
    ensures (forall events :: CallsOnly(events, calls) && Run(trust, limits, events).Some? ==>
               AtMostOnce(Run(trust, limits, events).value)) <==>
            Guarded(trust, limits, calls)
  {
    hide Run, AtMostOnce, Fits, OneOwner, CallsOnly;
    if Guarded(trust, limits, calls) {
      forall events | CallsOnly(events, calls) && Run(trust, limits, events).Some?
        ensures AtMostOnce(Run(trust, limits, events).value)
      {
        if calls.uses == {} {
          NothingPlaced(trust, limits, calls, events);
        } else {
          EveryRunIsAtMostOnce(trust, limits, calls, events);
        }
      }
    } else {
      var events := UnguardedDoubles(trust, limits, calls);
    }
  }

  lemma NothingPlaced(trust: Trust, limits: Limits, calls: Calls, events: seq<Event>)
    requires CallsOnly(events, calls) && Run(trust, limits, events).Some? && calls.uses == {}
    ensures AtMostOnce(Run(trust, limits, events).value)
  {
    OnlyPlacedIds(trust, limits, calls, events);
    hide Run;
    assert IdsOf(calls.uses) == {};
    var s := Run(trust, limits, events).value;
    assert forall m :: m in s.accepted ==> m in s.transit + s.accepted;
  }

  /** At most one order an intent in every run, exactly when moreover no intent is placed under two ids. */
  lemma OnePerIntentIff(trust: Trust, limits: Limits, calls: Calls)
    ensures (forall events :: CallsOnly(events, calls) && Run(trust, limits, events).Some? ==>
               OnePerIntent(Run(trust, limits, events).value, calls.uses)) <==>
            Guarded(trust, limits, calls) && OneId(calls.uses)
  {
    if Guarded(trust, limits, calls) && OneId(calls.uses) {
      AtMostOnceIff(trust, limits, calls);
      hide Run, AtMostOnce, OnePerIntent, CallsOnly;
      forall events | CallsOnly(events, calls) && Run(trust, limits, events).Some?
        ensures OnePerIntent(Run(trust, limits, events).value, calls.uses)
      {
        OnePerIdIsOnePerIntent(Run(trust, limits, events).value, calls.uses);
      }
    } else {
      var events := Doubled(trust, limits, calls);
    }
  }

  lemma OnePerIdIsOnePerIntent(s: System, uses: set<Use>)
    requires AtMostOnce(s) && OneId(uses)
    ensures OnePerIntent(s, uses)
  {
  }

  lemma Doubled(trust: Trust, limits: Limits, calls: Calls) returns (events: seq<Event>)
    requires !(Guarded(trust, limits, calls) && OneId(calls.uses))
    ensures CallsOnly(events, calls) && Run(trust, limits, events).Some?
    ensures !OnePerIntent(Run(trust, limits, events).value, calls.uses)
  {
    hide CallsOnly;
    if !OneId(calls.uses) {
      var u, v :| u in calls.uses && v in calls.uses && u.intent == v.intent && u.cid != v.cid;
      events := TwoIdsDouble(trust, limits, u, v);
      hide Run;
      CallsOfMore(events, Calls({u, v}, {}), calls);
      MoreUses(Run(trust, limits, events).value, {u, v}, calls.uses);
    } else {
      events := UnguardedDoubles(trust, limits, calls);
      hide Run;
      TwoOrdersOfOneIntent(trust, limits, calls, events);
    }
  }

  lemma MoreUses(s: System, some: set<Use>, uses: set<Use>)
    requires some <= uses && !OnePerIntent(s, some)
    ensures !OnePerIntent(s, uses)
  {
    var a, b :| a in s.accepted && b in s.accepted && SameIntent(some, a.cid, b.cid) && a != b;
    assert SameIntent(uses, a.cid, b.cid);
  }

  /** Two orders under one id are two orders of an intent: only placed ids have orders. */
  lemma TwoOrdersOfOneIntent(trust: Trust, limits: Limits, calls: Calls, events: seq<Event>)
    requires CallsOnly(events, calls) && Run(trust, limits, events).Some?
    requires !AtMostOnce(Run(trust, limits, events).value)
    ensures !OnePerIntent(Run(trust, limits, events).value, calls.uses)
  {
    var s := Run(trust, limits, events).value;
    OnlyPlacedIds(trust, limits, calls, events);
    hide Run, CallsOnly;
    var a, b :| a in s.accepted && b in s.accepted && a.cid == b.cid && a != b;
    assert a.cid in IdsOf(calls.uses);
    var u :| u in calls.uses && u.cid == a.cid;
    assert SameIntent(calls.uses, a.cid, b.cid);
  }

  /** Every message, and every placement in flight, is under an id that was placed. */
  ghost predicate Owned(s: System, uses: set<Use>) {
    && (forall m :: m in s.transit + s.accepted ==> m.cid in IdsOf(uses))
    && s.manager.inFlight.Keys <= IdsOf(uses)
  }

  lemma {:induction false} OnlyPlacedIds(trust: Trust, limits: Limits, calls: Calls, events: seq<Event>)
    requires CallsOnly(events, calls) && Run(trust, limits, events).Some?
    ensures Owned(Run(trust, limits, events).value, calls.uses)
  {
    if events != [] {
      var front, e := events[..|events| - 1], events[|events| - 1];
      OnlyPlacedIds(trust, limits, calls, front);
      if e.Place? {
        assert e.use.cid in IdsOf(calls.uses);
      }
      hide IdsOf;
      OwnedStep(limits, Run(trust, limits, front).value, calls.uses, e);
    }
  }

  lemma OwnedStep(limits: Limits, s: System, uses: set<Use>, e: Event)
    requires Owned(s, uses) && Enabled(s, e) && (e.Place? ==> e.use.cid in IdsOf(uses))
    ensures Owned(Next(limits, s, e), uses)
  {
    hide IdsOf, Record, AfterCreate, AfterFetch;
    match e {
      case CreateReturns(c, reply) =>
        var t := s.manager.inFlight[c];
        var phase := AfterCreate(limits, t.readable, t.phase.submission, reply);
        MoveToKeepsReadable(limits, s.manager, c, phase, t.message, c);
      case FetchReturns(c, reply) =>
        var t := s.manager.inFlight[c];
        var phase := AfterFetch(limits, t.readable, t.phase.submission, t.phase.attempt, reply);
        MoveToKeepsReadable(limits, s.manager, c, phase, if phase.Sending? then CountOf(s.sends, c) else t.message, c);
      case Reconcile(i, reply) =>
        RecordKeepsFlight(limits, s.manager, i, Entry(s.manager.ledger[i].cid, RECONCILED));
      case Cancelled(i, entry) =>
        RecordKeepsFlight(limits, s.manager, i, entry);
      case _ =>
    }
    hide MoveTo;
  }
}
